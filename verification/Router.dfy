/** The model router's choices: ranking a pool for a capability, and the next fallback. */
module Router {
  import opened Sequences
  import opened Wrappers

  type Ref = string

  datatype Trigger = Refusal | Timeout | Stall | GiveUp | Error

  /** A router's configuration.  `effective` and `speed` are the pool's capability profiles;
      `off` holds the triggers switched off. */
  datatype RouterConfig = RouterConfig(
    enabled: bool, reactive: bool, proactive: bool, pool: seq<Ref>, off: set<Trigger>,
    chains: map<string, seq<Ref>>, effective: (Ref, string) -> int, speed: Ref -> int)

  predicate TriggerOn(cfg: RouterConfig, t: Trigger) {
    cfg.enabled && cfg.reactive && t !in cfg.off
  }

  /** `a` is ranked at least as high as `b` for a need, ties broken by speed. */
  predicate AtLeast(cfg: RouterConfig, need: string, a: Ref, b: Ref) {
    cfg.effective(a, need) > cfg.effective(b, need)
    || (cfg.effective(a, need) == cfg.effective(b, need) && cfg.speed(a) >= cfg.speed(b))
  }

  function Insert(cfg: RouterConfig, need: string, x: Ref, sorted: seq<Ref>): (r: seq<Ref>)
    ensures Elements(r) == Elements(sorted) + {x}
  {
    if sorted == [] || AtLeast(cfg, need, x, sorted[0]) then ElementsConcat([x], sorted); [x] + sorted
    else
      var rest := Insert(cfg, need, x, sorted[1..]);
      assert sorted == [sorted[0]] + sorted[1..];
      ElementsConcat([sorted[0]], sorted[1..]);
      ElementsConcat([sorted[0]], rest);
      [sorted[0]] + rest
  }

  /** Best first; equals keep the pool's order. */
  function SortByProfile(cfg: RouterConfig, need: string, pool: seq<Ref>): (r: seq<Ref>)
    ensures Elements(r) == Elements(pool)
  {
    if pool == [] then []
    else
      assert pool == [pool[0]] + pool[1..];
      Insert(cfg, need, pool[0], SortByProfile(cfg, need, pool[1..]))
  }

  function Only(xs: seq<Ref>, keep: set<Ref>): (r: seq<Ref>)
    ensures Elements(r) == Elements(xs) * keep
  {
    if xs == [] then []
    else
      assert xs == [xs[0]] + xs[1..];
      ElementsConcat([xs[0]], xs[1..]);
      ElementsConcat([xs[0]], Only(xs[1..], keep));
      if xs[0] in keep then [xs[0]] + Only(xs[1..], keep) else Only(xs[1..], keep)
  }

  /** The pool ranked for a need: an explicit chain first, then the rest of the pool. */
  function Rank(cfg: RouterConfig, need: string): (r: seq<Ref>)
    ensures Elements(r) == Elements(cfg.pool)
  {
    var chain := if need in cfg.chains then cfg.chains[need] else [];
    if chain != [] then
      var ranked := Only(chain, Elements(cfg.pool));
      var others := Only(cfg.pool, Elements(cfg.pool) - Elements(ranked));
      ElementsConcat(ranked, others);
      ranked + others
    else SortByProfile(cfg, need, cfg.pool)
  }

  function Pick(cfg: RouterConfig, need: string): Option<Ref> {
    var r := Rank(cfg, need);
    if r == [] then None else Some(r[0])
  }

  function FirstFresh(ranked: seq<Ref>, current: Ref, tried: set<Ref>): (r: Option<Ref>)
    ensures r.None? <==> forall x :: x in ranked ==> x == current || x in tried
    ensures r.Some? ==> r.value in ranked && r.value != current && r.value !in tried
  {
    if ranked == [] then None
    else if ranked[0] != current && ranked[0] !in tried then Some(ranked[0])
    else
      assert ranked == [ranked[0]] + ranked[1..];
      FirstFresh(ranked[1..], current, tried)
  }

  /** The next model to try; none exactly when every pool model is current or tried. */
  function NextFallback(cfg: RouterConfig, current: Ref, need: string, tried: set<Ref>): (r: Option<Ref>)
    ensures r.None? <==> forall x :: x in cfg.pool ==> x == current || x in tried
    ensures r.Some? ==> r.value in cfg.pool && r.value != current && r.value !in tried
  {
    assert forall x :: x in Rank(cfg, need) <==> x in Elements(Rank(cfg, need));
    assert forall x :: x in cfg.pool <==> x in Elements(cfg.pool);
    FirstFresh(Rank(cfg, need), current, tried)
  }

  ghost predicate Descending(cfg: RouterConfig, need: string, s: seq<Ref>) {
    forall i, j :: 0 <= i < j < |s| ==> AtLeast(cfg, need, s[i], s[j])
  }

  lemma {:induction false} InsertDescends(cfg: RouterConfig, need: string, x: Ref, sorted: seq<Ref>)
    requires Descending(cfg, need, sorted)
    ensures Descending(cfg, need, Insert(cfg, need, x, sorted))
  {
    if sorted != [] && !AtLeast(cfg, need, x, sorted[0]) {
      var rest := Insert(cfg, need, x, sorted[1..]);
      assert Descending(cfg, need, sorted[1..]);
      InsertDescends(cfg, need, x, sorted[1..]);
      forall k | 0 <= k < |rest| ensures AtLeast(cfg, need, sorted[0], rest[k]) {
        assert rest[k] in Elements(rest);
        assert rest[k] == x || rest[k] in sorted[1..];
      }
    }
  }

  lemma {:induction false} SortDescends(cfg: RouterConfig, need: string, pool: seq<Ref>)
    ensures Descending(cfg, need, SortByProfile(cfg, need, pool))
  {
    if pool != [] {
      SortDescends(cfg, need, pool[1..]);
      InsertDescends(cfg, need, pool[0], SortByProfile(cfg, need, pool[1..]));
    }
  }

  lemma {:induction false} FirstFreshIsBest(
    cfg: RouterConfig, need: string, ranked: seq<Ref>, current: Ref, tried: set<Ref>, other: Ref)
    requires Descending(cfg, need, ranked) && FirstFresh(ranked, current, tried).Some?
    requires other in ranked && other != current && other !in tried
    ensures AtLeast(cfg, need, FirstFresh(ranked, current, tried).value, other)
  {
    if ranked[0] != current && ranked[0] !in tried {
      var k :| 0 <= k < |ranked| && ranked[k] == other;
    } else {
      assert Descending(cfg, need, ranked[1..]);
      FirstFreshIsBest(cfg, need, ranked[1..], current, tried, other);
    }
  }

  /** Without an explicit chain the fallback is a best model among those still fresh: none is more
      capable, and none of its capability is faster. */
  lemma FallbackIsBest(cfg: RouterConfig, current: Ref, need: string, tried: set<Ref>, other: Ref)
    requires need !in cfg.chains || cfg.chains[need] == []
    requires other in cfg.pool && other != current && other !in tried
    ensures NextFallback(cfg, current, need, tried).Some?
    ensures var best := NextFallback(cfg, current, need, tried).value;
      && cfg.effective(best, need) >= cfg.effective(other, need)
      && (cfg.effective(best, need) == cfg.effective(other, need) ==> cfg.speed(best) >= cfg.speed(other))
  {
    SortDescends(cfg, need, cfg.pool);
    assert other in Elements(Rank(cfg, need));
    FirstFreshIsBest(cfg, need, Rank(cfg, need), current, tried, other);
  }

  /** The pick for a need is the fallback when nothing is running or tried yet. */
  lemma PickIsFallback(cfg: RouterConfig, current: Ref, need: string)
    requires current !in cfg.pool
    ensures Pick(cfg, need) == NextFallback(cfg, current, need, {})
  {
    var r := Rank(cfg, need);
    if r != [] { assert r[0] in Elements(r); }
  }

  /** The models of one capability and speed, in order. */
  ghost function Alike(cfg: RouterConfig, need: string, s: seq<Ref>, e: int, speed: int): seq<Ref> {
    if s == [] then []
    else
      (if cfg.effective(s[0], need) == e && cfg.speed(s[0]) == speed then [s[0]] else []) +
      Alike(cfg, need, s[1..], e, speed)
  }

  lemma AlikeCons(cfg: RouterConfig, need: string, x: Ref, rest: seq<Ref>, e: int, speed: int)
    ensures Alike(cfg, need, [x] + rest, e, speed) ==
      (if cfg.effective(x, need) == e && cfg.speed(x) == speed then [x] else []) + Alike(cfg, need, rest, e, speed)
  {
    assert ([x] + rest)[1..] == rest;
  }

  lemma {:induction false} InsertIsStable(cfg: RouterConfig, need: string, x: Ref, sorted: seq<Ref>, e: int, speed: int)
    ensures Alike(cfg, need, Insert(cfg, need, x, sorted), e, speed) == Alike(cfg, need, [x] + sorted, e, speed)
  {
    hide Alike;
    if sorted != [] && !AtLeast(cfg, need, x, sorted[0]) {
      var head, tail := sorted[0], sorted[1..];
      assert sorted == [head] + tail;
      InsertIsStable(cfg, need, x, tail, e, speed);
      AlikeCons(cfg, need, head, Insert(cfg, need, x, tail), e, speed);
      AlikeCons(cfg, need, x, tail, e, speed);
      AlikeCons(cfg, need, x, sorted, e, speed);
      AlikeCons(cfg, need, head, tail, e, speed);
    }
  }

  /** Sorting keeps the pool's order among models that are alike. */
  lemma {:induction false} SortIsStable(cfg: RouterConfig, need: string, pool: seq<Ref>, e: int, speed: int)
    ensures Alike(cfg, need, SortByProfile(cfg, need, pool), e, speed) == Alike(cfg, need, pool, e, speed)
  {
    if pool != [] {
      var rest := SortByProfile(cfg, need, pool[1..]);
      assert pool == [pool[0]] + pool[1..];
      SortIsStable(cfg, need, pool[1..], e, speed);
      InsertIsStable(cfg, need, pool[0], rest, e, speed);
      AlikeCons(cfg, need, pool[0], rest, e, speed);
      AlikeCons(cfg, need, pool[0], pool[1..], e, speed);
    }
  }

  lemma {:induction false} FirstFreshConcat(a: seq<Ref>, b: seq<Ref>, current: Ref, tried: set<Ref>)
    ensures FirstFresh(a + b, current, tried) ==
      if FirstFresh(a, current, tried).Some? then FirstFresh(a, current, tried) else FirstFresh(b, current, tried)
  {
    if a == [] {
      assert a + b == b;
    } else {
      assert (a + b)[1..] == a[1..] + b;
      FirstFreshConcat(a[1..], b, current, tried);
    }
  }

  lemma {:induction false} FirstFreshInChain(chain: seq<Ref>, pool: set<Ref>, k: nat, current: Ref, tried: set<Ref>)
    requires k < |chain| && chain[k] in pool && chain[k] != current && chain[k] !in tried
    requires forall j :: 0 <= j < k ==> chain[j] !in pool || chain[j] == current || chain[j] in tried
    ensures FirstFresh(Only(chain, pool), current, tried) == Some(chain[k])
  {
    var rest := Only(chain[1..], pool);
    assert ([chain[0]] + rest)[1..] == rest;
    if k > 0 {
      assert chain[1..][k - 1] == chain[k];
      FirstFreshInChain(chain[1..], pool, k - 1, current, tried);
    }
  }

  /** An explicit chain wins: the fallback is its first pool model still fresh, and any other
      pool model comes only when the chain has none. */
  lemma ChainWins(cfg: RouterConfig, current: Ref, need: string, tried: set<Ref>)
    requires need in cfg.chains && cfg.chains[need] != []
    ensures var chain := cfg.chains[need];
      forall k :: 0 <= k < |chain| && chain[k] in cfg.pool && chain[k] != current && chain[k] !in tried
        && (forall j :: 0 <= j < k ==> chain[j] !in cfg.pool || chain[j] == current || chain[j] in tried)
        ==> NextFallback(cfg, current, need, tried) == Some(chain[k])
  {
    var chain, pool := cfg.chains[need], Elements(cfg.pool);
    var ranked := Only(chain, pool);
    FirstFreshConcat(ranked, Only(cfg.pool, pool - Elements(ranked)), current, tried);
    forall k | 0 <= k < |chain| && chain[k] in cfg.pool && chain[k] != current && chain[k] !in tried
      && (forall j :: 0 <= j < k ==> chain[j] !in cfg.pool || chain[j] == current || chain[j] in tried)
      ensures NextFallback(cfg, current, need, tried) == Some(chain[k])
    {
      FirstFreshInChain(chain, pool, k, current, tried);
    }
  }
}
