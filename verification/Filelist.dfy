/** Filelist (`.f`) ingestion: a recursive parser over an arbitrary include graph.

The parser is compared with one linear reading of the design: a single token stream in
which each existing file is inlined at the first `-f` that names it. */
module Filelist {
  import opened Sequences

  type Path = string

  /** The file system and the string functions of the host.  `found` says whether a path, as
      spelled, names something; `files` holds the tokens of each file, comments removed, under
      its absolute path. */
  datatype World = World(
    abspath: Path -> Path, dirname: Path -> Path, isabs: Path -> bool, joined: (Path, Path) -> Path,
    expand: string -> string, glob: Path -> seq<Path>, found: Path -> bool, files: map<Path, seq<string>>)

  function Resolve(w: World, base: Path, p: Path): Path {
    if w.isabs(p) then p else w.joined(base, p)
  }

  predicate Exists(w: World, p: Path) {
    w.found(p) && w.abspath(p) in w.files
  }

  // ---- tokens --------------------------------------------------------------------

  /** What reading one token contributes.  `Opened` and `Manifest` mark the reading of a file
      and the mention of one. */
  datatype Item =
    | Manifest(path: Path)
    | Opened(path: Path)
    | Source(path: Path)
    | IncDir(path: Path)
    | Define(key: string, value: string)

  datatype Effect = Include(path: Path) | Emit(items: seq<Item>)

  /** The non-empty pieces of `s` between separators. */
  function Pieces(s: string, sep: char): (r: seq<string>)
    ensures forall p :: p in r ==> p != [] && sep !in p
  {
    PiecesFrom(s, sep, [])
  }

  function PiecesFrom(s: string, sep: char, piece: string): (r: seq<string>)
    requires sep !in piece
    ensures forall p :: p in r ==> p != [] && sep !in p
  {
    if s == [] then (if piece == [] then [] else [piece])
    else if s[0] == sep then (if piece == [] then [] else [piece]) + PiecesFrom(s[1..], sep, [])
    else PiecesFrom(s[1..], sep, piece + [s[0]])
  }

  /** `KEY=VALUE` split at the first `=`; a bare `KEY` defines it as 1. */
  function DefineOf(d: string): Item {
    if i :| 0 <= i < |d| && d[i] == '=' && '=' !in d[..i] then Define(d[..i], d[i + 1..]) else Define(d, "1")
  }

  function IncDirs(w: World, base: Path, ds: seq<string>): (r: seq<Item>)
    ensures |r| == |ds| && forall i :: 0 <= i < |ds| ==> r[i] == IncDir(Resolve(w, base, ds[i]))
  {
    seq(|ds|, i requires 0 <= i < |ds| => IncDir(Resolve(w, base, ds[i])))
  }

  /** The effect of the token at `i` and the index of the next token to read.  A switch that
      takes an argument looks ahead within its own file only. */
  function Scan(w: World, base: Path, tokens: seq<string>, i: nat): (r: (Effect, nat))
    requires i < |tokens|
    ensures i < r.1 <= i + 2
    ensures r.0.Include? ==> i + 1 < |tokens|
  {
    var tok := w.expand(tokens[i]);
    if tok in ["-f", "-F", "-file"] then
      if i + 1 < |tokens| then (Include(Resolve(w, base, w.expand(tokens[i + 1]))), i + 2) else (Emit([]), i + 2)
    else if StartsWith(tok, "+incdir+") then
      (Emit(IncDirs(w, base, Pieces(tok[|"+incdir+"|..], '+'))), i + 1)
    else if StartsWith(tok, "-I") then
      var d := if tok[2..] != "" then tok[2..] else if i + 1 < |tokens| then tokens[i + 1] else "";
      (Emit(if d == "" then [] else [IncDir(Resolve(w, base, d))]), if tok == "-I" then i + 2 else i + 1)
    else if StartsWith(tok, "+define+") then
      var ds := Pieces(tok[|"+define+"|..], '+');
      (Emit(seq(|ds|, k requires 0 <= k < |ds| => DefineOf(ds[k]))), i + 1)
    else if StartsWith(tok, "-D") then
      (Emit(if tok[2..] == "" then [] else [DefineOf(tok[2..])]), i + 1)
    else if StartsWith(tok, "-y") || tok == "-v" then
      (Emit([]), i + 2)
    else if StartsWith(tok, "-") || StartsWith(tok, "+") then
      (Emit([]), i + 1)
    else
      var resolved := Resolve(w, base, tok);
      var matches := w.glob(resolved);
      var paths := if matches != [] then matches else [resolved];
      (Emit(seq(|paths|, k requires 0 <= k < |paths| => Source(paths[k]))), i + 1)
  }

  /** A file's effects from token `i` on. */
  function EffectsFrom(w: World, base: Path, tokens: seq<string>, i: nat): seq<Effect>
    decreases |tokens| - i
  {
    if i >= |tokens| then []
    else [Scan(w, base, tokens, i).0] + EffectsFrom(w, base, tokens, Scan(w, base, tokens, i).1)
  }

  function EffectsOf(w: World, p: Path): seq<Effect>
    requires Exists(w, p)
  {
    EffectsFrom(w, w.dirname(p), w.files[w.abspath(p)], 0)
  }

  // ---- the linear reading ----------------------------------------------------------

  /** What a linear reading produced, and the files it has opened. */
  datatype Reading = Reading(items: seq<Item>, seen: set<Path>)

  /** Read one stream of effects from left to right; an include of a file not yet seen puts
      that file's effects at the head of the stream. */
  function Linear(w: World, stream: seq<Effect>, seen: set<Path>): Reading
    decreases w.files.Keys - seen, |stream|
  {
    if stream == [] then Reading([], seen)
    else match stream[0]
      case Emit(items) =>
        var rest := Linear(w, stream[1..], seen);
        rest.(items := items + rest.items)
      case Include(p) =>
        var ap := w.abspath(p);
        if ap in seen || !Exists(w, p) then
          var rest := Linear(w, stream[1..], seen);
          rest.(items := [Manifest(ap)] + rest.items)
        else
          assert w.files.Keys - (seen + {ap}) < w.files.Keys - seen by { assert ap in w.files.Keys - seen; }
          var rest := Linear(w, EffectsOf(w, p) + stream[1..], seen + {ap});
          rest.(items := [Manifest(ap), Opened(ap)] + rest.items)
  }

  /** The reading that starts with the given items. */
  function Before(items: seq<Item>, r: Reading): Reading {
    r.(items := items + r.items)
  }

  lemma LinearCons(w: World, e: Effect, rest: seq<Effect>, seen: set<Path>)
    ensures Linear(w, [e] + rest, seen) ==
      if e.Emit? then Before(e.items, Linear(w, rest, seen))
      else if w.abspath(e.path) in seen || !Exists(w, e.path) then
        Before([Manifest(w.abspath(e.path))], Linear(w, rest, seen))
      else
        Before([Manifest(w.abspath(e.path)), Opened(w.abspath(e.path))],
               Linear(w, EffectsOf(w, e.path) + rest, seen + {w.abspath(e.path)}))
  {
    hide EffectsOf;
    assert ([e] + rest)[1..] == rest;
  }

  lemma BeforeTwice(a: seq<Item>, b: seq<Item>, r: Reading)
    ensures Before(a, Before(b, r)) == Before(a + b, r)
  {
    assert a + (b + r.items) == (a + b) + r.items;
  }

  /** Reading a concatenation is reading its parts one after the other. */
  lemma {:induction false} LinearConcat(w: World, a: seq<Effect>, b: seq<Effect>, seen: set<Path>)
    ensures var ra := Linear(w, a, seen); Linear(w, a + b, seen) == Before(ra.items, Linear(w, b, ra.seen))
    decreases w.files.Keys - seen, |a|
  {
    hide EffectsOf, Linear, Before;
    if a == [] {
      assert a + b == b;
      LinearNothing(w, b, seen);
    } else {
      var tail := a[1..];
      assert a == [a[0]] + tail && a + b == [a[0]] + (tail + b);
      LinearCons(w, a[0], tail, seen);
      LinearCons(w, a[0], tail + b, seen);
      if a[0].Include? && w.abspath(a[0].path) !in seen && Exists(w, a[0].path) {
        var p := a[0].path;
        var ap, body := w.abspath(p), EffectsOf(w, p) + tail;
        assert ap in w.files.Keys - seen;
        assert EffectsOf(w, p) + (tail + b) == body + b;
        LinearConcat(w, body, b, seen + {ap});
        LinearJoins([Manifest(ap), Opened(ap)], Linear(w, body, seen + {ap}),
          Linear(w, b, Linear(w, body, seen + {ap}).seen));
      } else {
        LinearConcat(w, tail, b, seen);
        var head := if a[0].Emit? then a[0].items else [Manifest(w.abspath(a[0].path))];
        LinearJoins(head, Linear(w, tail, seen), Linear(w, b, Linear(w, tail, seen).seen));
      }
    }
  }

  lemma LinearNothing(w: World, b: seq<Effect>, seen: set<Path>)
    ensures Linear(w, [], seen) == Reading([], seen) && Before([], Linear(w, b, seen)) == Linear(w, b, seen)
  {
  }

  lemma LinearJoins(head: seq<Item>, ra: Reading, rb: Reading)
    ensures Before(head, ra).seen == ra.seen
    ensures Before(head, Before(ra.items, rb)) == Before(Before(head, ra).items, rb)
  {
    BeforeTwice(head, ra.items, rb);
  }

  // ---- first-occurrence deduplication ----------------------------------------------

  /** Keep each element whose key is not in `seen` and has not occurred before it. */
  function Dedup<T, K(==)>(key: T -> K, xs: seq<T>, seen: set<K>): seq<T> {
    if xs == [] then []
    else if key(xs[0]) in seen then Dedup(key, xs[1..], seen)
    else [xs[0]] + Dedup(key, xs[1..], seen + {key(xs[0])})
  }

  ghost function Keys<T, K>(key: T -> K, xs: seq<T>): set<K> {
    set x | x in xs :: key(x)
  }

  lemma {:induction false} DedupConcat<T, K>(key: T -> K, a: seq<T>, b: seq<T>, seen: set<K>)
    ensures Dedup(key, a + b, seen) == Dedup(key, a, seen) + Dedup(key, b, seen + Keys(key, a))
  {
    if a == [] {
      assert a + b == b && seen + Keys(key, a) == seen;
    } else {
      assert (a + b)[1..] == a[1..] + b;
      assert Keys(key, a) == {key(a[0])} + Keys(key, a[1..]) by { assert a == [a[0]] + a[1..]; }
      var seen' := if key(a[0]) in seen then seen else seen + {key(a[0])};
      DedupConcat(key, a[1..], b, seen');
      assert seen' + Keys(key, a[1..]) == seen + Keys(key, a);
    }
  }

  /** Deduplicating an inner list first changes nothing for the outer pass. */
  lemma {:induction false} DedupTwice<T, K>(key: T -> K, xs: seq<T>, inner: set<K>, outer: set<K>)
    requires inner <= outer
    ensures Dedup(key, Dedup(key, xs, inner), outer) == Dedup(key, xs, outer)
    ensures Keys(key, Dedup(key, xs, inner)) == Keys(key, xs) - inner
  {
    if xs != [] {
      var k := key(xs[0]);
      assert Keys(key, xs) == {k} + Keys(key, xs[1..]) by { assert xs == [xs[0]] + xs[1..]; }
      if k in inner {
        DedupTwice(key, xs[1..], inner, outer);
      } else {
        var tail := Dedup(key, xs[1..], inner + {k});
        assert ([xs[0]] + tail)[1..] == tail;
        assert Keys(key, [xs[0]] + tail) == {k} + Keys(key, tail);
        DedupTwice(key, xs[1..], inner + {k}, outer + {k});
        if k in outer { assert outer + {k} == outer; }
      }
    }
  }

  /** The meaning of `Dedup`: the kept elements are those at the first position of their key,
      in their original order. */
  lemma {:induction false} DedupKeepsFirst<T, K>(key: T -> K, xs: seq<T>, i: nat, seen: set<K>)
    requires i < |xs|
    ensures Dedup(key, xs[..i + 1], seen) ==
      if key(xs[i]) in seen || key(xs[i]) in Keys(key, xs[..i]) then Dedup(key, xs[..i], seen)
      else Dedup(key, xs[..i], seen) + [xs[i]]
  {
    assert xs[..i + 1] == xs[..i] + [xs[i]];
    DedupConcat(key, xs[..i], [xs[i]], seen);
  }

  // ---- file sets ---------------------------------------------------------------------

  datatype Files = Files(sources: seq<Path>, incdirs: seq<Path>, defines: map<string, string>, manifests: seq<Path>)

  const NOTHING := Files([], [], map[], [])

  function Merge(a: Files, b: Files): Files {
    Files(a.sources + b.sources, a.incdirs + b.incdirs, a.defines + b.defines, a.manifests + b.manifests)
  }

  function One(item: Item): Files {
    match item
    case Manifest(p) => NOTHING.(manifests := [p])
    case Opened(_) => NOTHING
    case Source(p) => NOTHING.(sources := [p])
    case IncDir(p) => NOTHING.(incdirs := [p])
    case Define(k, v) => NOTHING.(defines := map[k := v])
  }

  /** Everything the items name, in order, later defines overriding earlier ones. */
  function Collect(items: seq<Item>): Files {
    if items == [] then NOTHING else Merge(One(items[0]), Collect(items[1..]))
  }

  lemma MergeAssociates(a: Files, b: Files, c: Files)
    ensures Merge(Merge(a, b), c) == Merge(a, Merge(b, c))
  {
    assert (a.defines + b.defines) + c.defines == a.defines + (b.defines + c.defines);
  }

  lemma MergeNothing(a: Files)
    ensures Merge(NOTHING, a) == a && Merge(a, NOTHING) == a
  {
    assert map[] + a.defines == a.defines;
  }

  lemma {:induction false} CollectConcat(a: seq<Item>, b: seq<Item>)
    ensures Collect(a + b) == Merge(Collect(a), Collect(b))
  {
    hide One, Merge;
    if a == [] {
      assert a + b == b;
      MergeNothing(Collect(b));
    } else {
      assert (a + b)[1..] == a[1..] + b;
      CollectConcat(a[1..], b);
      MergeAssociates(One(a[0]), Collect(a[1..]), Collect(b));
    }
  }

  lemma CollectOne(item: Item)
    ensures Collect([item]) == One(item)
  {
    MergeNothing(One(item));
  }

  function Same(p: Path): Path { p }

  /** Sources distinct by absolute path, include directories distinct as written. */
  function Normal(w: World, f: Files): Files {
    f.(sources := Dedup(w.abspath, f.sources, {}), incdirs := Dedup(Same, f.incdirs, {}))
  }

  lemma DedupAppend<T, K>(key: T -> K, a: seq<T>, a': seq<T>, b: seq<T>, b': seq<T>)
    requires Dedup(key, a, {}) == Dedup(key, a', {}) && Dedup(key, b, {}) == Dedup(key, b', {})
    ensures Dedup(key, a + b, {}) == Dedup(key, a' + b', {})
  {
    DedupConcat(key, a, b, {});
    DedupConcat(key, a', b', {});
    DedupTwice(key, a, {}, {});
    DedupTwice(key, a', {}, {});
    assert {} + Keys(key, a) == Keys(key, a) == Keys(key, a') == {} + Keys(key, a');
    DedupTwice(key, b, {}, Keys(key, a));
    DedupTwice(key, b', {}, Keys(key, a'));
  }

  /** Deduplication at every level of nesting composes to one deduplication at the top. */
  lemma NormalMerge(w: World, a: Files, a': Files, b: Files, b': Files)
    requires Normal(w, a) == Normal(w, a') && Normal(w, b) == Normal(w, b')
    ensures Normal(w, Merge(a, b)) == Normal(w, Merge(a', b'))
  {
    DedupAppend(w.abspath, a.sources, a'.sources, b.sources, b'.sources);
    DedupAppend(Same, a.incdirs, a'.incdirs, b.incdirs, b'.incdirs);
  }

  lemma NormalTwice(w: World, f: Files)
    ensures Normal(w, Normal(w, f)) == Normal(w, f)
  {
    DedupTwice(w.abspath, f.sources, {}, {});
    DedupTwice(Same, f.incdirs, {}, {});
  }

  // ---- the parser ----------------------------------------------------------------------

  class FileSet {
    var sources: seq<Path>
    var incdirs: seq<Path>
    var defines: map<string, string>
    var manifests: seq<Path>

    function Value(): Files
      reads this
    {
      Files(sources, incdirs, defines, manifests)
    }

    constructor ()
      ensures Value() == NOTHING
    {
      sources, incdirs, defines, manifests := [], [], map[], [];
    }

    method AddOne(item: Item)
      modifies this
      ensures Value() == Merge(old(Value()), One(item))
    {
      match item
      case Manifest(p) => manifests := manifests + [p];
      case Opened(_) =>
      case Source(p) => sources := sources + [p];
      case IncDir(p) => incdirs := incdirs + [p];
      case Define(k, v) => defines := defines[k := v];
    }

    method Add(items: seq<Item>)
      modifies this
      ensures Value() == Merge(old(Value()), Collect(items))
    {
      hide Merge, One, Value;
      MergeNothing(Value());
      for i := 0 to |items|
        invariant Value() == Merge(old(Value()), Collect(items[..i]))
      {
        PrefixGrows(items, i);
        CollectConcat(items[..i], [items[i]]);
        CollectOne(items[i]);
        MergeAssociates(old(Value()), Collect(items[..i]), One(items[i]));
        AddOne(items[i]);
      }
      assert items[..|items|] == items;
    }

    method Extend(child: FileSet)
      requires child != this
      modifies this
      ensures Value() == Merge(old(Value()), child.Value())
    {
      sources := sources + child.sources;
      incdirs := incdirs + child.incdirs;
      defines := defines + child.defines;
      manifests := manifests + child.manifests;
    }

    method DedupInPlace(w: World)
      modifies this
      ensures Value() == Normal(w, old(Value()))
    {
      sources := FirstOccurrences(w.abspath, sources);
      incdirs := FirstOccurrences(Same, incdirs);
    }
  }

  method FirstOccurrences(key: Path -> Path, xs: seq<Path>) returns (kept: seq<Path>)
    ensures kept == Dedup(key, xs, {})
  {
    var seen: set<Path> := {};
    kept := [];
    for i := 0 to |xs|
      invariant seen == Keys(key, xs[..i])
      invariant kept == Dedup(key, xs[..i], {})
    {
      DedupKeepsFirst(key, xs, i, {});
      assert xs[..i + 1] == xs[..i] + [xs[i]];
      if key(xs[i]) !in seen {
        seen := seen + {key(xs[i])};
        kept := kept + [xs[i]];
      }
    }
    assert xs[..|xs|] == xs;
  }

  /** The visited set that one parse shares with the parses it makes. */
  class Visited {
    var paths: set<Path>

    constructor ()
      ensures paths == {}
    {
      paths := {};
    }
  }

  /** The set a parse starts from.  An empty shared set counts as none, so the parse then
      keeps a set of its own. */
  ghost function StartingSet(shared: Visited?): set<Path>
    reads if shared == null then {} else {shared}
  {
    if shared == null then {} else shared.paths
  }

  /** Reading one more effect: first the effect alone, then the rest of the stream. */
  lemma LinearStep(w: World, base: Path, tokens: seq<string>, i: nat, seen: set<Path>)
    requires i < |tokens|
    ensures var (effect, next) := Scan(w, base, tokens, i);
      var first := Linear(w, [effect], seen);
      var rest := Linear(w, EffectsFrom(w, base, tokens, next), first.seen);
      Linear(w, EffectsFrom(w, base, tokens, i), seen) == Reading(first.items + rest.items, rest.seen)
    ensures var (effect, _) := Scan(w, base, tokens, i);
      effect.Emit? ==> Linear(w, [effect], seen) == Reading(effect.items, seen)
  {
    hide Scan;
    var (effect, next) := Scan(w, base, tokens, i);
    LinearConcat(w, [effect], EffectsFrom(w, base, tokens, next), seen);
    if effect.Emit? {
      assert [effect][1..] == [] && effect.items + [] == effect.items;
    }
  }

  lemma Absorb(w: World, before: Files, read: seq<Item>, now: Files, more: Files, items: seq<Item>)
    requires Normal(w, now) == Normal(w, Merge(before, Collect(read)))
    requires Normal(w, more) == Normal(w, Collect(items))
    ensures Normal(w, Merge(now, more)) == Normal(w, Merge(before, Collect(read + items)))
  {
    hide Normal, Merge, Collect;
    NormalMerge(w, now, Merge(before, Collect(read)), more, Collect(items));
    MergeAssociates(before, Collect(read), Collect(items));
    CollectConcat(read, items);
  }

  /** The token loop of one file, adding to `fs` what a linear reading of the file adds. */
  method ParseTokens(w: World, base: Path, tokens: seq<string>, seen: Visited, fs: FileSet)
    requires seen.paths != {}
    modifies seen, fs
    ensures var r := Linear(w, EffectsFrom(w, base, tokens, 0), old(seen.paths));
      && seen.paths == r.seen && old(seen.paths) <= seen.paths
      && Normal(w, fs.Value()) == Normal(w, Merge(old(fs.Value()), Collect(r.items)))
    decreases w.files.Keys - seen.paths, 1
  {
    hide Linear, Normal, Collect, Merge, Scan, EffectsFrom, FileSet.Value;
    ghost var whole := Linear(w, EffectsFrom(w, base, tokens, 0), seen.paths);
    ghost var read: seq<Item> := [];
    var i := 0;
    CollectNothing(fs.Value());
    while i < |tokens|
      invariant old(seen.paths) <= seen.paths
      invariant var rest := Linear(w, EffectsFrom(w, base, tokens, i), seen.paths);
        whole == Reading(read + rest.items, rest.seen)
      invariant Normal(w, fs.Value()) == Normal(w, Merge(old(fs.Value()), Collect(read)))
      decreases |tokens| - i
    {
      var (effect, next) := Scan(w, base, tokens, i);
      LinearStep(w, base, tokens, i, seen.paths);
      ghost var items := Linear(w, [effect], seen.paths).items;
      ghost var now, s := fs.Value(), seen.paths;
      match effect {
        case Include(p) =>
          var child := ParseFilelist(w, p, seen);
          NormalTwice(w, Collect(items));
          Absorb(w, old(fs.Value()), read, now, child.Value(), items);
          fs.Extend(child);
        case Emit(_) =>
          Absorb(w, old(fs.Value()), read, now, Collect(items), items);
          fs.Add(effect.items);
      }
      read := read + items;
      i := next;
    }
    LinearEnd(w, base, tokens, i, seen.paths);
    assert read + [] == read;
  }

  lemma CollectNothing(f: Files)
    ensures Merge(f, Collect([])) == f
  {
    MergeNothing(f);
  }

  lemma LinearEnd(w: World, base: Path, tokens: seq<string>, i: nat, seen: set<Path>)
    requires i >= |tokens|
    ensures Linear(w, EffectsFrom(w, base, tokens, i), seen) == Reading([], seen)
  {
  }

  lemma LinearOfInclude(w: World, p: Path, seen: set<Path>)
    ensures Linear(w, [Include(p)], seen) ==
      var ap := w.abspath(p);
      if ap in seen || !Exists(w, p) then Reading([Manifest(ap)], seen)
      else var r := Linear(w, EffectsOf(w, p), seen + {ap}); r.(items := [Manifest(ap), Opened(ap)] + r.items)
  {
    hide EffectsOf;
    assert [Include(p)][1..] == [];
    if w.abspath(p) !in seen && Exists(w, p) {
      assert EffectsOf(w, p) + [] == EffectsOf(w, p);
    }
  }

  lemma CollectAfterHeader(ap: Path, items: seq<Item>)
    ensures Merge(Collect([Manifest(ap)]), Collect(items)) == Collect([Manifest(ap), Opened(ap)] + items)
    ensures Merge(NOTHING, Collect([Manifest(ap)])) == Collect([Manifest(ap)])
  {
    hide Merge, One;
    CollectConcat([Manifest(ap), Opened(ap)], items);
    CollectConcat([Manifest(ap)], [Opened(ap)]);
    CollectOne(Opened(ap));
    MergeNothing(Collect([Manifest(ap)]));
    assert One(Opened(ap)) == NOTHING by { OpenedIsNothing(ap); }
    assert [Manifest(ap), Opened(ap)] == [Manifest(ap)] + [Opened(ap)];
  }

  lemma OpenedIsNothing(ap: Path)
    ensures One(Opened(ap)) == NOTHING
  {
  }

  lemma ManifestIsNormal(w: World, ap: Path)
    ensures Normal(w, Collect([Manifest(ap)])) == Collect([Manifest(ap)])
  {
  }

  method ParseFilelist(w: World, path: Path, shared: Visited?) returns (fs: FileSet)
    modifies if shared == null then {} else {shared}
    ensures fresh(fs)
    ensures fs.Value() == Normal(w, Collect(Linear(w, [Include(path)], old(StartingSet(shared))).items))
    ensures shared != null ==>
      shared.paths == SetAfter(w, path, old(shared.paths))
    ensures shared != null ==> old(shared.paths) <= shared.paths
    decreases w.files.Keys - StartingSet(shared), 0
  {
    hide Linear, Normal, Collect, Merge, FileSet.Value;
    ghost var start := StartingSet(shared);
    LinearOfInclude(w, path, start);
    CollectAfterHeader(w.abspath(path), []);
    var seen: Visited;
    if shared == null || shared.paths == {} {
      seen := new Visited();
    } else {
      seen := shared;
    }
    fs := new FileSet();
    assert fs.Value() == NOTHING;
    var ap := w.abspath(path);
    fs.Add([Manifest(ap)]);
    if ap in seen.paths || !Exists(w, path) {
      ManifestIsNormal(w, ap);
      return;
    }
    ghost var body := Linear(w, EffectsOf(w, path), seen.paths + {ap});
    CollectAfterHeader(ap, body.items);
    seen.paths := seen.paths + {ap};
    ParseTokens(w, w.dirname(path), w.files[ap], seen, fs);
    fs.DedupInPlace(w);
  }

  /** What a design's filelists name, each read linearly from an empty visited set. */
  ghost function AllFilelists(w: World, filelists: seq<Path>): Files {
    if filelists == [] then NOTHING
    else
      var init, last := filelists[..|filelists| - 1], filelists[|filelists| - 1];
      Merge(AllFilelists(w, init), Collect(Linear(w, [Include(last)], {}).items))
  }

  /** All the inputs of a target together: filelists, then what other manifest readers found
      (a FuseSoC core's defines are not taken), then globbed and plain source paths. */
  method ResolveSources(
    w: World, filelists: seq<Path>, core: Files, bender: Files, globbed: seq<Path>, plain: seq<Path>)
    returns (fs: FileSet)
    ensures fs.Value() == Normal(w, Merge(Merge(Merge(AllFilelists(w, filelists), core.(defines := map[])), bender),
                                          NOTHING.(sources := globbed + plain)))
  {
    hide Linear, Normal, Collect, AllFilelists;
    fs := new FileSet();
    AllFilelistsStart(w);
    for i := 0 to |filelists|
      invariant fresh(fs)
      invariant Normal(w, fs.Value()) == Normal(w, AllFilelists(w, filelists[..i]))
    {
      var child := ParseFilelist(w, filelists[i], null);
      AllFilelistsStep(w, filelists, i, fs.Value(), child.Value());
      var before := fs.Value();
      fs.Extend(child);
      assert fs.Value() == Merge(before, child.Value());
    }
    assert filelists[..|filelists|] == filelists;
    ghost var lists, read := AllFilelists(w, filelists), fs.Value();
    ghost var core' := core.(defines := map[]);
    ghost var rest := NOTHING.(sources := globbed + plain);
    NormalMerge(w, read, lists, core', core');
    NormalMerge(w, Merge(read, core'), Merge(lists, core'), bender, bender);
    NormalMerge(w, Merge(Merge(read, core'), bender), Merge(Merge(lists, core'), bender), rest, rest);
    fs.sources := fs.sources + core.sources + bender.sources + (globbed + plain);
    fs.incdirs := fs.incdirs + core.incdirs + bender.incdirs;
    fs.defines := fs.defines + bender.defines;
    fs.manifests := fs.manifests + core.manifests + bender.manifests;
    MergeWithoutDefines(read, core);
    MergeNothing(Merge(Merge(read, core'), bender));
    assert fs.Value() == Merge(Merge(Merge(read, core'), bender), rest);
    fs.DedupInPlace(w);
  }

  lemma MergeWithoutDefines(a: Files, b: Files)
    ensures Merge(a, b.(defines := map[])).defines == a.defines
  {
    assert a.defines + map[] == a.defines;
  }

  lemma AllFilelistsStart(w: World)
    ensures AllFilelists(w, []) == NOTHING
  {
  }

  lemma AllFilelistsStep(w: World, filelists: seq<Path>, i: nat, now: Files, child: Files)
    requires i < |filelists| && Normal(w, now) == Normal(w, AllFilelists(w, filelists[..i]))
    requires child == Normal(w, Collect(Linear(w, [Include(filelists[i])], {}).items))
    ensures Normal(w, Merge(now, child)) == Normal(w, AllFilelists(w, filelists[..i + 1]))
  {
    hide Linear, Collect, Merge;
    var c := Collect(Linear(w, [Include(filelists[i])], {}).items);
    NormalTwice(w, c);
    NormalMerge(w, now, AllFilelists(w, filelists[..i]), child, c);
    assert filelists[..i + 1][..i] == filelists[..i];
  }

  // ---- writing a filelist that reads back ------------------------------------------------

  datatype Def = Value(key: string, value: string) | Flag(key: string)

  /** One thing a filelist says: include directories together or alone, defines likewise, a
      source, a nested filelist, a library to pass over, or a switch that is ignored. */
  datatype Entry =
    | IncludeDirs(dirs: seq<string>)
    | IncludeDir(dir: string, apart: bool)
    | Defines(defs: seq<Def>)
    | Defined(def: Def)
    | SourceFile(path: string)
    | Nested(path: string, switch: string)
    | Library(path: string, switch: string)
    | Ignored(switch: string)

  function DefText(d: Def): string {
    match d
    case Value(k, v) => k + "=" + v
    case Flag(k) => k
  }

  function DefTexts(ds: seq<Def>): (r: seq<string>)
    ensures |r| == |ds| && forall k :: 0 <= k < |ds| ==> r[k] == DefText(ds[k])
  {
    seq(|ds|, k requires 0 <= k < |ds| => DefText(ds[k]))
  }

  function DefItem(d: Def): Item {
    match d
    case Value(k, v) => Define(k, v)
    case Flag(k) => Define(k, "1")
  }

  function Spell(e: Entry): seq<string> {
    match e
    case IncludeDirs(ds) => ["+incdir+" + Joined(ds, '+')]
    case IncludeDir(d, apart) => if apart then ["-I", d] else ["-I" + d]
    case Defines(ds) => ["+define+" + Joined(DefTexts(ds), '+')]
    case Defined(d) => ["-D" + DefText(d)]
    case SourceFile(p) => [p]
    case Nested(p, switch) => [switch, p]
    case Library(p, switch) => [switch, p]
    case Ignored(t) => [t]
  }

  /** What reading the entry in a file of directory `base` has to amount to. */
  function Meaning(w: World, base: Path, e: Entry): Effect {
    match e
    case IncludeDirs(ds) => Emit(seq(|ds|, k requires 0 <= k < |ds| => IncDir(Resolve(w, base, ds[k]))))
    case IncludeDir(d, _) => Emit([IncDir(Resolve(w, base, d))])
    case Defines(ds) => Emit(seq(|ds|, k requires 0 <= k < |ds| => DefItem(ds[k])))
    case Defined(d) => Emit([DefItem(d)])
    case SourceFile(p) =>
      var matches := w.glob(Resolve(w, base, p));
      var paths := if matches != [] then matches else [Resolve(w, base, p)];
      Emit(seq(|paths|, k requires 0 <= k < |paths| => Source(paths[k])))
    case Nested(p, _) => Include(Resolve(w, base, p))
    case Library(_, _) => Emit([])
    case Ignored(_) => Emit([])
  }

  predicate IsSwitch(t: string) {
    StartsWith(t, "-") || StartsWith(t, "+")
  }

  predicate WritableDef(d: Def) {
    '=' !in d.key && (d.Flag? ==> d.key != "")
  }

  /** Entries that survive being written: names hold no separator of their spelling, and a source
      does not look like a switch. */
  predicate Writable(e: Entry) {
    match e
    case IncludeDirs(ds) => forall d :: d in ds ==> d != "" && '+' !in d
    case IncludeDir(d, _) => d != ""
    case Defines(ds) => forall d :: d in ds ==> WritableDef(d) && '+' !in DefText(d)
    case Defined(d) => WritableDef(d)
    case SourceFile(p) => !IsSwitch(p)
    case Nested(_, switch) => switch in ["-f", "-F", "-file"]
    case Library(_, switch) => StartsWith(switch, "-y") || switch == "-v"
    case Ignored(t) =>
      && IsSwitch(t) && t !in ["-f", "-F", "-file", "-v"] && !StartsWith(t, "-I") && !StartsWith(t, "-D")
      && !StartsWith(t, "-y") && !StartsWith(t, "+incdir+") && !StartsWith(t, "+define+")
  }

  function Meanings(w: World, base: Path, es: seq<Entry>): seq<Effect> {
    if es == [] then [] else [Meaning(w, base, es[0])] + Meanings(w, base, es[1..])
  }

  // ---- pieces read back ------------------------------------------------------------------

  function Joined(ps: seq<string>, sep: char): string {
    if ps == [] then "" else if |ps| == 1 then ps[0] else ps[0] + [sep] + Joined(ps[1..], sep)
  }

  function NonEmpty(ps: seq<string>): seq<string> {
    if ps == [] then [] else (if ps[0] == "" then [] else [ps[0]]) + NonEmpty(ps[1..])
  }

  /** A run without separators joins the piece being read. */
  lemma {:induction false} RunJoinsPiece(s: string, rest: string, sep: char, piece: string)
    requires sep !in s && sep !in piece
    ensures sep !in piece + s && PiecesFrom(s + rest, sep, piece) == PiecesFrom(rest, sep, piece + s)
  {
    if s == [] {
      assert s + rest == rest && piece + s == piece;
    } else {
      assert s[0] in s && forall c :: c in s[1..] ==> c in s;
      assert (s + rest)[1..] == s[1..] + rest;
      RunJoinsPiece(s[1..], rest, sep, piece + [s[0]]);
      assert piece + [s[0]] + s[1..] == piece + s;
    }
  }

  /** Splitting what was joined gives the pieces back, but for the empty ones. */
  lemma {:induction false} PiecesOfJoined(ps: seq<string>, sep: char)
    requires forall p :: p in ps ==> sep !in p
    ensures Pieces(Joined(ps, sep), sep) == NonEmpty(ps)
  {
    if ps != [] {
      assert ps[0] in ps && [] + ps[0] == ps[0];
      if |ps| == 1 {
        assert ps[0] + [] == ps[0];
        RunJoinsPiece(ps[0], [], sep, []);
        assert ps[1..] == [] && NonEmpty([]) == [];
      } else {
        var rest := [sep] + Joined(ps[1..], sep);
        assert Joined(ps, sep) == ps[0] + rest && rest[1..] == Joined(ps[1..], sep);
        RunJoinsPiece(ps[0], rest, sep, []);
        PiecesOfJoined(ps[1..], sep);
      }
    }
  }

  lemma {:induction false} AllNonEmpty(ps: seq<string>)
    requires forall p :: p in ps ==> p != ""
    ensures NonEmpty(ps) == ps
  {
    if ps != [] {
      assert ps[0] in ps && ps == [ps[0]] + ps[1..];
      assert forall p :: p in ps[1..] ==> p in ps;
      AllNonEmpty(ps[1..]);
    }
  }

  lemma DefReadsBack(d: Def)
    requires WritableDef(d)
    ensures DefText(d) != "" && DefineOf(DefText(d)) == DefItem(d)
  {
    if d.Value? {
      var k, text := d.key, DefText(d);
      assert text[|k|] == '=' && text[..|k|] == k && text[|k| + 1..] == d.value;
      assert forall i :: 0 <= i < |k| ==> text[i] == k[i] != '=';
      assert forall i :: |k| < i <= |text| ==> text[..i][|k|] == '=';
    }
  }

  // ---- entries read back -------------------------------------------------------------------

  /** The tokens of an entry stand at `i`, once variables in them are expanded; the argument of a
      switch is taken as it stands but for that of a nested filelist. */
  ghost predicate SpelledAt(w: World, tokens: seq<string>, i: nat, e: Entry) {
    && i + |Spell(e)| <= |tokens| && w.expand(tokens[i]) == Spell(e)[0]
    && (|Spell(e)| == 2 ==> Spell(e)[1] == if e.Nested? then w.expand(tokens[i + 1]) else tokens[i + 1])
  }

  /** From `i` on, the tokens are those of the entries. */
  ghost predicate SpelledFrom(w: World, tokens: seq<string>, i: nat, es: seq<Entry>)
    decreases |es|
  {
    if es == [] then i == |tokens|
    else SpelledAt(w, tokens, i, es[0]) && SpelledFrom(w, tokens, i + |Spell(es[0])|, es[1..])
  }

  lemma ScanReadsBack(w: World, base: Path, tokens: seq<string>, i: nat, e: Entry)
    requires SpelledAt(w, tokens, i, e) && Writable(e)
    ensures i < |tokens| && Scan(w, base, tokens, i) == (Meaning(w, base, e), i + |Spell(e)|)
  {
    hide PiecesFrom, Pieces, DefineOf, IncDirs, Resolve, Scan, Joined, DefItem;
    match e
    case IncludeDirs(ds) => ScanIncludeDirs(w, base, tokens, i, ds);
    case IncludeDir(d, apart) => ScanIncludeDir(w, base, tokens, i, d, apart);
    case Defines(ds) => ScanDefines(w, base, tokens, i, ds);
    case Defined(d) => ScanDefined(w, base, tokens, i, d);
    case SourceFile(p) => ScanSource(w, base, tokens, i);
    case Nested(p, _) => ScanNested(w, base, tokens, i);
    case Library(_, _) => ScanIgnored(w, base, tokens, i);
    case Ignored(_) => ScanIgnored(w, base, tokens, i);
  }

  lemma ScanIncludeDirs(w: World, base: Path, tokens: seq<string>, i: nat, ds: seq<string>)
    requires i < |tokens| && w.expand(tokens[i]) == "+incdir+" + Joined(ds, '+') && Writable(IncludeDirs(ds))
    ensures Scan(w, base, tokens, i) == (Meaning(w, base, IncludeDirs(ds)), i + 1)
  {
    hide Pieces, DefineOf, Resolve, Joined;
    var tok := w.expand(tokens[i]);
    assert tok[0] == '+' && tok[..8] == "+incdir+" && tok[8..] == Joined(ds, '+');
    PiecesOfJoined(ds, '+');
    AllNonEmpty(ds);
    assert IncDirs(w, base, ds) == Meaning(w, base, IncludeDirs(ds)).items;
  }

  lemma ScanIncludeDir(w: World, base: Path, tokens: seq<string>, i: nat, d: string, apart: bool)
    requires i < |tokens| && d != ""
    requires if apart then w.expand(tokens[i]) == "-I" && i + 1 < |tokens| && tokens[i + 1] == d
      else w.expand(tokens[i]) == "-I" + d
    ensures Scan(w, base, tokens, i) == (Emit([IncDir(Resolve(w, base, d))]), if apart then i + 2 else i + 1)
  {
    hide Pieces, DefineOf, Resolve;
    var tok := w.expand(tokens[i]);
    if apart {
      assert tok[2..] == "";
    } else {
      assert tok[0] == '-' && tok[1] == 'I' && tok[..2] == "-I" && tok[2..] == d && |tok| > 2;
    }
  }

  lemma ScanDefines(w: World, base: Path, tokens: seq<string>, i: nat, ds: seq<Def>)
    requires i < |tokens| && w.expand(tokens[i]) == "+define+" + Joined(DefTexts(ds), '+') && Writable(Defines(ds))
    ensures Scan(w, base, tokens, i) == (Meaning(w, base, Defines(ds)), i + 1)
  {
    hide Pieces, DefineOf, Resolve, Joined, WritableDef, DefText, DefItem, IncDirs;
    var tok, texts := w.expand(tokens[i]), DefTexts(ds);
    assert tok[0] == '+' && tok[1] == 'd' && tok[..8] == "+define+" && tok[8..] == Joined(texts, '+');
    forall k | 0 <= k < |ds| ensures texts[k] != "" && '+' !in texts[k] && DefineOf(texts[k]) == DefItem(ds[k]) {
      DefReadsBack(ds[k]);
    }
    PiecesOfJoined(texts, '+');
    AllNonEmpty(texts);
    assert seq(|texts|, k requires 0 <= k < |texts| => DefineOf(texts[k])) == Meaning(w, base, Defines(ds)).items;
  }

  lemma ScanDefined(w: World, base: Path, tokens: seq<string>, i: nat, d: Def)
    requires i < |tokens| && w.expand(tokens[i]) == "-D" + DefText(d) && WritableDef(d)
    ensures Scan(w, base, tokens, i) == (Emit([DefItem(d)]), i + 1)
  {
    hide Pieces, DefineOf, Resolve, DefText, DefItem, WritableDef, IncDirs;
    var tok := w.expand(tokens[i]);
    DefReadsBack(d);
    assert tok[0] == '-' && tok[1] == 'D' && tok[..2] == "-D" && tok[2..] == DefText(d);
  }

  lemma ScanSource(w: World, base: Path, tokens: seq<string>, i: nat)
    requires i < |tokens| && !IsSwitch(w.expand(tokens[i]))
    ensures Scan(w, base, tokens, i) == (Meaning(w, base, SourceFile(w.expand(tokens[i]))), i + 1)
  {
    hide Pieces, DefineOf, IncDirs, Resolve;
    NoSwitch(w.expand(tokens[i]));
  }

  lemma NoSwitch(t: string)
    requires !IsSwitch(t)
    ensures !StartsWith(t, "+incdir+") && !StartsWith(t, "-I") && !StartsWith(t, "+define+")
    ensures !StartsWith(t, "-D") && !StartsWith(t, "-y") && t !in ["-f", "-F", "-file", "-v"]
  {
    assert t != "" ==> t[..1] == [t[0]];
  }

  lemma ScanNested(w: World, base: Path, tokens: seq<string>, i: nat)
    requires i + 1 < |tokens| && w.expand(tokens[i]) in ["-f", "-F", "-file"]
    ensures Scan(w, base, tokens, i) == (Include(Resolve(w, base, w.expand(tokens[i + 1]))), i + 2)
  {
    hide Pieces, DefineOf, IncDirs, Resolve;
  }

  /** A library skips its argument; any other switch stands alone. */
  lemma ScanIgnored(w: World, base: Path, tokens: seq<string>, i: nat)
    requires i < |tokens|
    requires var t := w.expand(tokens[i]); StartsWith(t, "-y") || t == "-v" || Writable(Ignored(t))
    ensures var t := w.expand(tokens[i]);
      Scan(w, base, tokens, i) == (Emit([]), if StartsWith(t, "-y") || t == "-v" then i + 2 else i + 1)
  {
    hide Pieces, DefineOf, IncDirs, Resolve;
    var t := w.expand(tokens[i]);
    if StartsWith(t, "-y") || t == "-v" {
      assert t == "-v" ==> t[1] == 'v';
      assert StartsWith(t, "-y") ==> t[1] == t[..2][1] == 'y';
      assert t[0] == '-' by { assert StartsWith(t, "-y") ==> t[0] == t[..2][0]; }
    }
  }

  /** Round trip: a written filelist reads back as what its entries mean, in their order and
      wherever in a file they stand. */
  lemma {:induction false} WrittenReadsBack(w: World, base: Path, es: seq<Entry>, tokens: seq<string>, i: nat)
    requires SpelledFrom(w, tokens, i, es) && forall e :: e in es ==> Writable(e)
    ensures EffectsFrom(w, base, tokens, i) == Meanings(w, base, es)
    decreases |es|
  {
    hide Scan, Writable, Spell, Meaning, SpelledAt;
    if es != [] {
      ScanReadsBack(w, base, tokens, i, es[0]);
      WrittenReadsBack(w, base, es[1..], tokens, i + |Spell(es[0])|);
    }
  }

  // ---- what the linear reading opens -----------------------------------------------------

  function Opens(items: seq<Item>): seq<Path> {
    if items == [] then [] else (if items[0].Opened? then [items[0].path] else []) + Opens(items[1..])
  }

  /** Effects that come from a token loop open no file themselves. */
  ghost predicate Plain(stream: seq<Effect>) {
    forall e :: e in stream && e.Emit? ==> Opens(e.items) == []
  }

  lemma {:induction false} OpensConcat(a: seq<Item>, b: seq<Item>)
    ensures Opens(a + b) == Opens(a) + Opens(b)
  {
    if a == [] {
      assert a + b == b;
    } else {
      assert (a + b)[1..] == a[1..] + b;
      OpensConcat(a[1..], b);
    }
  }

  lemma {:induction false} NothingOpened(items: seq<Item>)
    requires forall x :: x in items ==> !x.Opened?
    ensures Opens(items) == []
  {
    if items != [] { NothingOpened(items[1..]); }
  }

  lemma {:induction false} EffectsArePlain(w: World, base: Path, tokens: seq<string>, i: nat)
    ensures Plain(EffectsFrom(w, base, tokens, i))
    decreases |tokens| - i
  {
    if i < |tokens| {
      EffectsArePlain(w, base, tokens, Scan(w, base, tokens, i).1);
      var effect := Scan(w, base, tokens, i).0;
      if effect.Emit? { NothingOpened(effect.items); }
    }
  }

  /** The files opened by a reading: each once, none seen before, all seen after. */
  ghost predicate OpensFresh(w: World, seen: set<Path>, r: Reading) {
    && NoDup(Opens(r.items)) && Elements(Opens(r.items)) !! seen
    && r.seen == seen + Elements(Opens(r.items)) && r.seen <= seen + w.files.Keys
  }

  lemma OpensFreshAfter(w: World, seen: set<Path>, items: seq<Item>, rest: Reading)
    requires OpensFresh(w, seen, rest) && Opens(items) == []
    ensures OpensFresh(w, seen, rest.(items := items + rest.items))
  {
    OpensConcat(items, rest.items);
    assert [] + Opens(rest.items) == Opens(rest.items);
  }

  lemma OpensFreshFile(w: World, seen: set<Path>, ap: Path, rest: Reading)
    requires ap !in seen && ap in w.files && OpensFresh(w, seen + {ap}, rest)
    ensures OpensFresh(w, seen, rest.(items := [Manifest(ap), Opened(ap)] + rest.items))
  {
    hide Opens, Elements, NoDup;
    var later := Opens(rest.items);
    OpensConcat([Manifest(ap), Opened(ap)], rest.items);
    OpensHeader(ap);
    NoDupCons(ap, later);
  }

  /** Every file is opened at most once, and the files opened are exactly those newly seen. */
  lemma {:induction false} OpensEachFileOnce(w: World, stream: seq<Effect>, seen: set<Path>)
    requires Plain(stream)
    ensures OpensFresh(w, seen, Linear(w, stream, seen))
    decreases w.files.Keys - seen, |stream|
  {
    hide EffectsOf, OpensFresh, Plain, Opens;
    if stream == [] {
      NothingOpens(w, seen);
    } else {
      var tail := stream[1..];
      PlainParts(stream);
      match stream[0]
      case Emit(items) =>
        OpensEachFileOnce(w, tail, seen);
        OpensFreshAfter(w, seen, items, Linear(w, tail, seen));
      case Include(p) =>
        var ap := w.abspath(p);
        if ap in seen || !Exists(w, p) {
          OpensEachFileOnce(w, tail, seen);
          NothingOpened([Manifest(ap)]);
          OpensFreshAfter(w, seen, [Manifest(ap)], Linear(w, tail, seen));
        } else {
          assert ap in w.files.Keys - seen;
          PlainBody(w, p);
          PlainConcat(EffectsOf(w, p), tail);
          OpensEachFileOnce(w, EffectsOf(w, p) + tail, seen + {ap});
          OpensFreshFile(w, seen, ap, Linear(w, EffectsOf(w, p) + tail, seen + {ap}));
        }
    }
  }

  lemma NothingOpens(w: World, seen: set<Path>)
    ensures OpensFresh(w, seen, Reading([], seen))
  {
  }

  lemma PlainParts(stream: seq<Effect>)
    requires stream != [] && Plain(stream)
    ensures Plain(stream[1..]) && (stream[0].Emit? ==> Opens(stream[0].items) == [])
  {
  }

  lemma PlainConcat(a: seq<Effect>, b: seq<Effect>)
    requires Plain(a) && Plain(b)
    ensures Plain(a + b)
  {
  }

  lemma PlainBody(w: World, p: Path)
    requires Exists(w, p)
    ensures Plain(EffectsOf(w, p))
  {
    EffectsArePlain(w, w.dirname(p), w.files[w.abspath(p)], 0);
  }

  lemma OpensHeader(ap: Path)
    ensures Opens([Manifest(ap), Opened(ap)]) == [ap]
  {
    assert [Manifest(ap), Opened(ap)][1..] == [Opened(ap)];
    assert Opens([Opened(ap)]) == [ap] + Opens([Opened(ap)][1..]);
  }

  // ---- reachability by `-f` --------------------------------------------------------------

  ghost predicate Names(w: World, p: Path, q: Path) {
    Exists(w, p) && Include(q) in EffectsOf(w, p)
  }

  /** A chain of includes, every file of it existing. */
  ghost predicate IncludeChain(w: World, c: seq<Path>) {
    && c != [] && (forall i :: 0 <= i < |c| ==> Exists(w, c[i]))
    && forall i :: 0 <= i < |c| - 1 ==> Names(w, c[i], c[i + 1])
  }

  ghost predicate Reached(w: World, root: Path, p: Path) {
    exists c :: IncludeChain(w, c) && c[0] == root && c[|c| - 1] == p
  }

  ghost predicate ReachedFrom(w: World, root: Path, ap: Path) {
    exists p :: Reached(w, root, p) && w.abspath(p) == ap
  }

  /** `p` names an existing file with this absolute path. */
  ghost predicate NamesFile(w: World, p: Path, ap: Path) {
    exists q :: Names(w, p, q) && Exists(w, q) && w.abspath(q) == ap
  }

  /** How a path that the parse can meet spells a file does not change which existing files
      that file names. */
  ghost predicate SpellingInsensitive(w: World, root: Path) {
    forall p, p', ap :: Reached(w, root, p) && Reached(w, root, p') && w.abspath(p) == w.abspath(p') ==>
      NamesFile(w, p, ap) ==> NamesFile(w, p', ap)
  }

  lemma ReachedRoot(w: World, root: Path)
    requires Exists(w, root)
    ensures Reached(w, root, root)
  {
    assert IncludeChain(w, [root]);
  }

  lemma ReachedNext(w: World, root: Path, p: Path, q: Path)
    requires Reached(w, root, p) && Names(w, p, q) && Exists(w, q)
    ensures Reached(w, root, q)
  {
    hide EffectsOf;
    var c :| IncludeChain(w, c) && c[0] == root && c[|c| - 1] == p;
    assert IncludeChain(w, c + [q]);
  }

  ghost predicate ReachedIncludes(w: World, root: Path, stream: seq<Effect>) {
    forall q :: Include(q) in stream && Exists(w, q) ==> Reached(w, root, q)
  }

  lemma BodyIsReached(w: World, root: Path, p: Path, tail: seq<Effect>)
    requires Reached(w, root, p) && Exists(w, p) && ReachedIncludes(w, root, tail)
    ensures ReachedIncludes(w, root, EffectsOf(w, p) + tail)
  {
    hide EffectsOf, Reached;
    forall q | Include(q) in EffectsOf(w, p) && Exists(w, q) ensures Reached(w, root, q) {
      ReachedNext(w, root, p, q);
    }
  }

  /** An existing file at the head of the stream that has not been seen. */
  ghost predicate OpensNext(w: World, stream: seq<Effect>, seen: set<Path>) {
    stream != [] && stream[0].Include? && w.abspath(stream[0].path) !in seen && Exists(w, stream[0].path)
  }

  lemma {:induction false} OnlyReachedFilesSeen(w: World, root: Path, stream: seq<Effect>, seen: set<Path>)
    requires ReachedIncludes(w, root, stream)
    requires forall ap :: ap in seen ==> ReachedFrom(w, root, ap)
    ensures forall ap :: ap in Linear(w, stream, seen).seen ==> ReachedFrom(w, root, ap)
    decreases w.files.Keys - seen, |stream|
  {
    hide EffectsOf, Reached;
    if stream != [] {
      var tail := stream[1..];
      assert ReachedIncludes(w, root, tail);
      if OpensNext(w, stream, seen) {
        var p := stream[0].path;
        assert w.abspath(p) in w.files.Keys - seen;
        assert Include(p) in stream;
        BodyIsReached(w, root, p, tail);
        OnlyReachedFilesSeen(w, root, EffectsOf(w, p) + tail, seen + {w.abspath(p)});
      } else {
        OnlyReachedFilesSeen(w, root, tail, seen);
      }
    }
  }

  /** An include of this existing file waits in the stream. */
  ghost predicate Waits(w: World, stream: seq<Effect>, ap: Path) {
    exists q :: Include(q) in stream && Exists(w, q) && w.abspath(q) == ap
  }

  /** Everything that a seen file names is itself seen or still waiting in the stream. */
  ghost predicate Covered(w: World, root: Path, stream: seq<Effect>, seen: set<Path>) {
    forall p, q :: Reached(w, root, p) && w.abspath(p) in seen && Names(w, p, q) && Exists(w, q) ==>
      w.abspath(q) in seen || Waits(w, stream, w.abspath(q))
  }

  lemma {:induction false} ReadingCovers(w: World, root: Path, stream: seq<Effect>, seen: set<Path>)
    requires SpellingInsensitive(w, root) && ReachedIncludes(w, root, stream) && Covered(w, root, stream, seen)
    ensures var r := Linear(w, stream, seen).seen;
      && seen <= r && Covered(w, root, [], r)
      && forall q :: Include(q) in stream && Exists(w, q) ==> w.abspath(q) in r
    decreases w.files.Keys - seen, |stream|
  {
    hide EffectsOf, Covered, SpellingInsensitive, Reached;
    if stream != [] {
      var tail := stream[1..];
      assert stream == [stream[0]] + tail;
      if OpensNext(w, stream, seen) {
        var p := stream[0].path;
        assert w.abspath(p) in w.files.Keys - seen;
        assert Include(p) in stream;
        BodyIsReached(w, root, p, tail);
        CoveredByBody(w, root, p, tail, seen);
        ReadingCovers(w, root, EffectsOf(w, p) + tail, seen + {w.abspath(p)});
      } else {
        CoveredByTail(w, root, stream, seen);
        ReadingCovers(w, root, tail, seen);
      }
    }
  }

  lemma CoveredByTail(w: World, root: Path, stream: seq<Effect>, seen: set<Path>)
    requires stream != [] && Covered(w, root, stream, seen) && !OpensNext(w, stream, seen)
    ensures Covered(w, root, stream[1..], seen)
  {
    hide EffectsOf, Names, Reached;
    assert stream == [stream[0]] + stream[1..];
  }

  lemma CoveredByBody(w: World, root: Path, p: Path, tail: seq<Effect>, seen: set<Path>)
    requires SpellingInsensitive(w, root) && Reached(w, root, p) && Exists(w, p)
    requires Covered(w, root, [Include(p)] + tail, seen)
    ensures Covered(w, root, EffectsOf(w, p) + tail, seen + {w.abspath(p)})
  {
    hide EffectsOf, SpellingInsensitive, Reached, Names, Waits;
    var stream, body, seen' := [Include(p)] + tail, EffectsOf(w, p) + tail, seen + {w.abspath(p)};
    forall x, q | Reached(w, root, x) && w.abspath(x) in seen' && Names(w, x, q) && Exists(w, q)
      ensures w.abspath(q) in seen' || Waits(w, body, w.abspath(q))
    {
      if w.abspath(x) == w.abspath(p) {
        SameName(w, root, x, p, q, tail);
      } else if w.abspath(q) !in seen {
        StillWaits(w, p, tail, w.abspath(q));
      }
    }
  }

  lemma SameName(w: World, root: Path, x: Path, p: Path, q: Path, tail: seq<Effect>)
    requires SpellingInsensitive(w, root) && Reached(w, root, x) && Reached(w, root, p) && Exists(w, p)
    requires w.abspath(x) == w.abspath(p) && Names(w, x, q) && Exists(w, q)
    ensures Waits(w, EffectsOf(w, p) + tail, w.abspath(q))
  {
    hide EffectsOf, Reached, Names, Waits;
    assert NamesFile(w, x, w.abspath(q));
    NamedWaits(w, p, w.abspath(q), tail);
  }

  lemma NamedWaits(w: World, p: Path, ap: Path, tail: seq<Effect>)
    requires Exists(w, p) && NamesFile(w, p, ap)
    ensures Waits(w, EffectsOf(w, p) + tail, ap)
  {
    hide EffectsOf;
    var q :| Names(w, p, q) && Exists(w, q) && w.abspath(q) == ap;
    assert Include(q) in EffectsOf(w, p) + tail;
  }

  lemma StillWaits(w: World, p: Path, tail: seq<Effect>, ap: Path)
    requires Exists(w, p) && Waits(w, [Include(p)] + tail, ap)
    ensures ap == w.abspath(p) || Waits(w, EffectsOf(w, p) + tail, ap)
  {
    hide EffectsOf;
    var q :| Include(q) in [Include(p)] + tail && Exists(w, q) && w.abspath(q) == ap;
    if q != p { assert Include(q) in EffectsOf(w, p) + tail; }
  }

  /** Every file on a chain from the root has been seen. */
  lemma {:induction false} ChainIsSeen(w: World, root: Path, c: seq<Path>, n: nat, seen: set<Path>)
    requires IncludeChain(w, c) && c[0] == root && Covered(w, root, [], seen) && w.abspath(root) in seen
    requires n < |c|
    ensures Reached(w, root, c[n]) && w.abspath(c[n]) in seen
  {
    hide EffectsOf, Reached, Names;
    if n == 0 {
      ReachedRoot(w, root);
    } else {
      ChainIsSeen(w, root, c, n - 1, seen);
      assert Names(w, c[n - 1], c[n - 1 + 1]);
      ReachedNext(w, root, c[n - 1], c[n]);
    }
  }

  lemma StartIsCovered(w: World, root: Path, stream: seq<Effect>)
    ensures Covered(w, root, stream, {})
  {
  }

  /** Started with nothing visited, a parse visits exactly the existing files reachable from
      its root, cycles and diamonds included. */
  lemma VisitsExactlyTheReachable(w: World, root: Path)
    requires SpellingInsensitive(w, root)
    ensures forall ap :: ap in Linear(w, [Include(root)], {}).seen <==> ReachedFrom(w, root, ap)
  {
    hide Linear, EffectsOf, SpellingInsensitive, Covered, Reached;
    var seen := Linear(w, [Include(root)], {}).seen;
    StartIsCovered(w, root, [Include(root)]);
    if Exists(w, root) { ReachedRoot(w, root); }
    assert ReachedIncludes(w, root, [Include(root)]);
    OnlyReachedFilesSeen(w, root, [Include(root)], {});
    ReadingCovers(w, root, [Include(root)], {});
    forall ap | ReachedFrom(w, root, ap) ensures ap in seen {
      var p :| Reached(w, root, p) && w.abspath(p) == ap;
      var c := ChainTo(w, root, p);
      assert Include(root) in [Include(root)];
      ChainIsSeen(w, root, c, |c| - 1, seen);
    }
  }

  lemma ChainTo(w: World, root: Path, p: Path) returns (c: seq<Path>)
    requires Reached(w, root, p)
    ensures IncludeChain(w, c) && c[0] == root && c[|c| - 1] == p && Exists(w, root)
  {
    hide EffectsOf, Names;
    c :| IncludeChain(w, c) && c[0] == root && c[|c| - 1] == p;
  }

  // ---- when spelling makes no difference -----------------------------------------------------

  /** Two spellings of one existing file lead to the same place: a path resolved against the
      directory of either has one absolute path, and exists under both or neither. */
  ghost predicate PathsAgree(w: World) {
    forall p, p', x :: Exists(w, p) && Exists(w, p') && w.abspath(p) == w.abspath(p') ==>
      SamePlace(w, Resolve(w, w.dirname(p), x), Resolve(w, w.dirname(p'), x))
  }

  ghost predicate SamePlace(w: World, q: Path, q': Path) {
    w.abspath(q) == w.abspath(q') && (Exists(w, q) <==> Exists(w, q'))
  }

  lemma {:induction false} SameIncludes(w: World, base: Path, base': Path, tokens: seq<string>, i: nat, q: Path)
    returns (x: Path)
    requires Include(q) in EffectsFrom(w, base, tokens, i)
    ensures q == Resolve(w, base, x) && Include(Resolve(w, base', x)) in EffectsFrom(w, base', tokens, i)
    decreases |tokens| - i
  {
    hide Pieces, DefineOf, IncDirs, Resolve;
    var (effect, next) := Scan(w, base, tokens, i);
    assert Scan(w, base', tokens, i).1 == next;
    if effect == Include(q) {
      x := w.expand(tokens[i + 1]);
      assert Scan(w, base', tokens, i).0 == Include(Resolve(w, base', x));
    } else {
      x := SameIncludes(w, base, base', tokens, next, q);
    }
  }

  /** Path functions under which spellings agree make every design insensitive to spelling. */
  lemma AgreeingPathsAreInsensitive(w: World, root: Path)
    requires PathsAgree(w)
    ensures SpellingInsensitive(w, root)
  {
    hide Reached, EffectsFrom, Resolve;
    forall p, p', ap | Reached(w, root, p) && Reached(w, root, p') && w.abspath(p) == w.abspath(p') &&
      NamesFile(w, p, ap)
      ensures NamesFile(w, p', ap)
    {
      var _ := ChainEnd(w, root, p');
      var q :| Names(w, p, q) && Exists(w, q) && w.abspath(q) == ap;
      var x := SameIncludes(w, w.dirname(p), w.dirname(p'), w.files[w.abspath(p)], 0, q);
      var q' := Resolve(w, w.dirname(p'), x);
      assert SamePlace(w, q, q');
      assert Names(w, p', q');
    }
  }

  lemma ChainEnd(w: World, root: Path, p: Path) returns (c: seq<Path>)
    requires Reached(w, root, p)
    ensures Exists(w, p)
  {
    hide Names;
    c :| IncludeChain(w, c) && c[0] == root && c[|c| - 1] == p;
  }

  // ---- a visited set that is not shared -------------------------------------------------------

  /** The caller's set afterwards, as `ParseFilelist` leaves it. */
  function SetAfter(w: World, path: Path, start: set<Path>): set<Path> {
    if start == {} then {} else Linear(w, [Include(path)], start).seen
  }

  /** A caller's set records what the parse opened exactly when it was not empty to start with,
      or there was nothing to open. */
  lemma EmptySetIsNotShared(w: World, path: Path, start: set<Path>)
    ensures SetAfter(w, path, start) == Linear(w, [Include(path)], start).seen <==> start != {} || !Exists(w, path)
  {
    hide EffectsOf;
    LinearOfInclude(w, path, start);
    if Exists(w, path) { SeenGrows(w, EffectsOf(w, path), start + {w.abspath(path)}); }
  }

  lemma {:induction false} SeenGrows(w: World, stream: seq<Effect>, seen: set<Path>)
    ensures seen <= Linear(w, stream, seen).seen
    decreases w.files.Keys - seen, |stream|
  {
    hide EffectsOf;
    if stream != [] {
      if OpensNext(w, stream, seen) {
        var p := stream[0].path;
        assert w.abspath(p) in w.files.Keys - seen;
        SeenGrows(w, EffectsOf(w, p) + stream[1..], seen + {w.abspath(p)});
      } else {
        SeenGrows(w, stream[1..], seen);
      }
    }
  }

  /** A design whose root is opened while the caller's set stays empty. */
  lemma EmptySetStaysEmpty() returns (w: World, path: Path)
    ensures Exists(w, path) && SetAfter(w, path, {}) == {} != Linear(w, [Include(path)], {}).seen
  {
    hide Linear;
    w := World(p => p, p => "", p => true, (b, p) => p, s => s, p => [], p => true, map["top.f" := []]);
    path := "top.f";
    EmptySetIsNotShared(w, path, {});
  }
}
