/** The corpus vector cache: embed only what changed, persist, and agree with recomputation. */
module Embeddings {
  import opened Sequences
  import opened Wrappers

  type Name = string
  type Vector = seq<int>

  /** A server and the embedding model it runs. */
  datatype Endpoint = Endpoint(base: string, model: string)

  /** A deterministic, rounded embedder, and an item's text and content hash. */
  datatype Host<!Item> = Host(
    embed: (Endpoint, string) -> Vector, textOf: Item -> string, hashOf: Item -> string)

  datatype Entry = Entry(hash: string, vec: Vector)

  /** The cache is keyed by the model alone. */
  datatype Cache = Cache(model: string, entries: map<Name, Entry>)

  /** What is assumed of the hash: equal hashes mean equal texts. */
  ghost predicate HashesDecide<Item(!new)>(h: Host<Item>) {
    forall x, y :: h.hashOf(x) == h.hashOf(y) ==> h.textOf(x) == h.textOf(y)
  }

  /** What recomputing gives for an item. */
  function Fresh<Item>(h: Host<Item>, e: Endpoint, item: Item): Vector {
    h.embed(e, h.textOf(item))
  }

  /** Every entry holds what the server it came from embeds for any item that has its hash. */
  ghost predicate Consistent<Item(!new)>(h: Host<Item>, c: Cache, origins: map<Name, string>) {
    && origins.Keys == c.entries.Keys
    && forall n, item :: n in c.entries && h.hashOf(item) == c.entries[n].hash ==>
      c.entries[n].vec == Fresh(h, Endpoint(origins[n], c.model), item)
  }

  function EntriesFor(c: Option<Cache>, model: string): map<Name, Entry> {
    if c.Some? && c.value.model == model then c.value.entries else map[]
  }

  function OriginsFor(c: Option<Cache>, origins: map<Name, string>, model: string): map<Name, string> {
    if c.Some? && c.value.model == model then origins else map[]
  }

  /** The item's content is not in the cache under its name. */
  predicate Stale<Item>(h: Host<Item>, entries: map<Name, Entry>, name: Name, item: Item) {
    name !in entries || entries[name].hash != h.hashOf(item)
  }

  /** The cache holds the endpoint's model, and under this name an entry with this content. */
  ghost predicate UpToDate<Item(!new)>(h: Host<Item>, file: Option<Cache>, e: Endpoint, n: Name, item: Item) {
    && file.Some? && file.value.model == e.model && n in file.value.entries
    && file.value.entries[n].hash == h.hashOf(item)
  }

  /** The items to embed: all that are not up to date. */
  ghost function ToEmbed<Item(!new)>(
    h: Host<Item>, file: Option<Cache>, items: map<Name, Item>, e: Endpoint): set<Name> {
    set n | n in items && !UpToDate(h, file, e, n, items[n])
  }

  lemma StaleMeans<Item(!new)>(h: Host<Item>, file: Option<Cache>, items: map<Name, Item>, e: Endpoint)
    ensures forall n :: n in items ==>
      (Stale(h, EntriesFor(file, e.model), n, items[n]) <==> !UpToDate(h, file, e, n, items[n]))
  {
  }

  /** The server an item's vector comes from: the endpoint's if the item was embedded now, else
      the one that embedded it before. */
  function Source(from: map<Name, string>, embedded: set<Name>, e: Endpoint, n: Name): string {
    if n in embedded || n !in from then e.base else from[n]
  }

  /** Every cached vector came from the endpoint's own server. */
  ghost predicate OneServer(from: map<Name, string>, e: Endpoint) {
    forall n :: n in from ==> from[n] == e.base
  }

  /** The persistent cache of one corpus; `None` when the file is missing or unreadable. */
  class CorpusCache<Item(!new)> {
    const host: Host<Item>
    var file: Option<Cache>
    ghost var origins: map<Name, string> // the server that embedded each entry

    ghost predicate Valid()
      reads this
    {
      HashesDecide(host) && (file.Some? ==> Consistent(host, file.value, origins))
    }

    constructor (host: Host<Item>)
      requires HashesDecide(host)
      ensures Valid() && this.host == host && file == None
    {
      this.host, file, origins := host, None, map[];
    }

    /** One vector for each item, embedding only the stale ones.  Without an endpoint nothing is
        read or written; a failing embedder leaves the file as it was. */
    method CachedVectors(items: map<Name, Item>, order: seq<Name>, endpoint: Option<Endpoint>, answers: bool)
      returns (vectors: Option<map<Name, Vector>>, embedded: set<Name>)
      requires Valid() && (forall n :: n in order <==> n in items)
      modifies this`file, this`origins
      ensures Valid()
      ensures endpoint.None? ==> vectors.None? && embedded == {}
      ensures endpoint.Some? ==> embedded == ToEmbed(host, old(file), items, endpoint.value)
      ensures endpoint.Some? ==> (vectors.None? <==> embedded != {} && !answers)
      ensures vectors.Some? ==>
        var e, from := endpoint.value, OriginsFor(old(file), old(origins), endpoint.value.model);
        vectors.value == map n | n in items :: Fresh(host, Endpoint(Source(from, embedded, e, n), e.model), items[n])
      // which is what recomputing everything gives, when the model id or the servers so far decide it
      ensures vectors.Some? ==>
        var e := endpoint.value;
        ModelDecides(host) || OneServer(OriginsFor(old(file), old(origins), e.model), e) ==>
        vectors.value == map n | n in items :: Fresh(host, e, items[n])
      ensures embedded == {} || vectors.None? ==> file == old(file) && origins == old(origins)
      ensures embedded != {} && vectors.Some? ==>
        && file.Some? && file.value.model == endpoint.value.model && file.value.entries.Keys == items.Keys
        && origins == map n | n in items ::
          Source(OriginsFor(old(file), old(origins), endpoint.value.model), embedded, endpoint.value, n)
    {
      hide Fresh, Consistent, Source, Stale, UpToDate, ModelDecides, OneServer;
      if endpoint.None? {
        return None, {};
      }
      var e := endpoint.value;
      var entries := EntriesFor(file, e.model);
      ghost var from := OriginsFor(file, origins, e.model);
      StaleMeans(host, file, items, e);
      StartsConsistent(host, file, origins, e.model);
      var todo := StaleNames(host, entries, items, order);
      embedded := set n | n in todo;
      assert embedded == ToEmbed(host, file, items, e) == Elements(todo);
      NotStaleIsKnown(host, entries, items);
      if todo != [] {
        assert todo[0] in embedded;
        if !answers {
          return None, embedded;
        }
        entries := Refreshed(host, e, items, todo, entries, from);
        origins := map n | n in items :: Source(from, embedded, e, n);
        file := Some(Cache(e.model, entries));
        ReadFrom(host, e, items, entries, origins, from, embedded);
      } else {
        assert embedded == {};
        NothingEmbedded(host, e, items, entries, from);
        ReadFrom(host, e, items, entries, from, from, embedded);
      }
      vectors := Some(map n | n in entries && n in items :: entries[n].vec);
      Recomputes(host, e, items, from, embedded);
    }
  }

  lemma Recomputes<Item(!new)>(
    h: Host<Item>, e: Endpoint, items: map<Name, Item>, from: map<Name, string>, embedded: set<Name>)
    ensures ModelDecides(h) || OneServer(from, e) ==>
      (map n | n in items :: Fresh(h, Endpoint(Source(from, embedded, e, n), e.model), items[n]))
      == map n | n in items :: Fresh(h, e, items[n])
  {
    hide Fresh;
  }

  /** The names whose content is not in the cache. */
  method StaleNames<Item(!new)>(h: Host<Item>, entries: map<Name, Entry>, items: map<Name, Item>, order: seq<Name>)
    returns (todo: seq<Name>)
    requires forall n :: n in order <==> n in items
    ensures forall n :: n in todo <==> n in items && Stale(h, entries, n, items[n])
  {
    hide Stale;
    todo := [];
    for i := 0 to |order|
      invariant forall n :: n in todo <==> n in order[..i] && Stale(h, entries, n, items[n])
    {
      assert order[..i + 1] == order[..i] + [order[i]];
      if Stale(h, entries, order[i], items[order[i]]) {
        todo := todo + [order[i]];
      }
    }
    assert order[..|order|] == order;
  }

  lemma StartsConsistent<Item(!new)>(h: Host<Item>, file: Option<Cache>, origins: map<Name, string>, model: string)
    requires file.Some? ==> Consistent(h, file.value, origins)
    ensures Consistent(h, Cache(model, EntriesFor(file, model)), OriginsFor(file, origins, model))
  {
    hide Fresh;
  }

  lemma NothingEmbedded<Item(!new)>(
    h: Host<Item>, e: Endpoint, items: map<Name, Item>, entries: map<Name, Entry>, from: map<Name, string>)
    requires Consistent(h, Cache(e.model, entries), from) && forall n :: n in items ==> !Stale(h, entries, n, items[n])
    ensures forall n :: n in items ==> n in from && from[n] == Source(from, {}, e, n)
    ensures forall n :: n in items ==> n in entries && entries[n].hash == h.hashOf(items[n])
  {
    hide Fresh;
  }

  /** Up-to-date entries give each item the vector of its source. */
  lemma ReadFrom<Item(!new)>(
    h: Host<Item>, e: Endpoint, items: map<Name, Item>, entries: map<Name, Entry>, origins: map<Name, string>,
    from: map<Name, string>, embedded: set<Name>)
    requires Consistent(h, Cache(e.model, entries), origins)
    requires forall n :: n in items ==> n in entries && entries[n].hash == h.hashOf(items[n])
    requires forall n :: n in items ==> n in origins && origins[n] == Source(from, embedded, e, n)
    ensures (map n | n in entries && n in items :: entries[n].vec)
      == map n | n in items :: Fresh(h, Endpoint(Source(from, embedded, e, n), e.model), items[n])
  {
    hide Fresh, Source;
  }

  /** Entries after embedding `done` of the stale items. */
  ghost predicate Embedded<Item(!new)>(
    h: Host<Item>, e: Endpoint, items: map<Name, Item>, entries: map<Name, Entry>, done: set<Name>, r: map<Name, Entry>)
  {
    && done <= items.Keys && r.Keys == entries.Keys + done
    && (forall n :: n in done ==> r[n] == Entry(h.hashOf(items[n]), Fresh(h, e, items[n])))
    && (forall n :: n in entries && n !in done ==> r[n] == entries[n])
  }

  lemma EmbedOne<Item(!new)>(
    h: Host<Item>, e: Endpoint, items: map<Name, Item>, entries: map<Name, Entry>, done: set<Name>, r: map<Name, Entry>,
    n: Name)
    requires Embedded(h, e, items, entries, done, r) && n in items
    ensures Embedded(h, e, items, entries, done + {n}, r[n := Entry(h.hashOf(items[n]), Fresh(h, e, items[n]))])
  {
    hide Fresh;
  }

  /** Embedding the stale items of a consistent cache and dropping the rest leaves it
      consistent and current. */
  lemma EmbeddedIsCurrent<Item(!new)>(
    h: Host<Item>, e: Endpoint, items: map<Name, Item>, entries: map<Name, Entry>, from: map<Name, string>,
    done: set<Name>, r: map<Name, Entry>)
    requires HashesDecide(h) && Consistent(h, Cache(e.model, entries), from)
    requires Embedded(h, e, items, entries, done, r)
    requires forall n :: n in items && n !in done ==> !Stale(h, entries, n, items[n])
    ensures var kept := map n | n in r && n in items :: r[n];
      && kept.Keys == items.Keys && (forall n :: n in kept ==> kept[n].hash == h.hashOf(items[n]))
      && Consistent(h, Cache(e.model, kept), map n | n in items :: Source(from, done, e, n))
  {
    var kept := map n | n in r && n in items :: r[n];
    assert forall n :: n in items && n !in done ==> n in entries;
    assert kept.Keys == items.Keys;
  }

  /** The entries after embedding `todo` and dropping items that no longer exist. */
  method Refreshed<Item(!new)>(
    h: Host<Item>, e: Endpoint, items: map<Name, Item>, todo: seq<Name>, entries: map<Name, Entry>,
    ghost from: map<Name, string>)
    returns (r: map<Name, Entry>)
    requires HashesDecide(h) && Consistent(h, Cache(e.model, entries), from)
    requires forall n :: n in todo <==> n in items && Stale(h, entries, n, items[n])
    ensures Consistent(h, Cache(e.model, r), map n | n in items :: Source(from, Elements(todo), e, n))
    ensures r.Keys == items.Keys && forall n :: n in r ==> r[n].hash == h.hashOf(items[n])
    ensures forall n :: n in items && n !in todo ==> n in entries && r[n] == entries[n]
  {
    hide Fresh, Stale, Consistent, Source;
    r := entries;
    for i := 0 to |todo|
      invariant Embedded(h, e, items, entries, Elements(todo[..i]), r)
    {
      var n := todo[i];
      assert n in todo;
      PrefixGrows(todo, i);
      EmbedOne(h, e, items, entries, Elements(todo[..i]), r, n);
      r := r[n := Entry(h.hashOf(items[n]), Fresh(h, e, items[n]))];
    }
    assert todo[..|todo|] == todo;
    NotStaleIsKnown(h, entries, items);
    EmbeddedIsCurrent(h, e, items, entries, from, Elements(todo), r);
    r := map n | n in r && n in items :: r[n];
  }

  lemma NotStaleIsKnown<Item>(h: Host<Item>, entries: map<Name, Entry>, items: map<Name, Item>)
    ensures forall n :: n in items && !Stale(h, entries, n, items[n]) ==> n in entries
  {
  }

  // ---- servers that share a model id ---------------------------------------------------------

  /** The model id decides the embedding, whichever server runs it. */
  ghost predicate ModelDecides<Item(!new)>(h: Host<Item>) {
    forall b, b', model, item :: Fresh(h, Endpoint(b, model), item) == Fresh(h, Endpoint(b', model), item)
  }

  /** Every up-to-date entry of every consistent cache is what the endpoint would embed now. */
  ghost predicate CacheAgrees<Item(!new)>(h: Host<Item>) {
    forall c, origins, n, item, b :: Consistent(h, c, origins) && !Stale(h, c.entries, n, item) ==>
      c.entries[n].vec == Fresh(h, Endpoint(b, c.model), item)
  }

  /** The cache agrees with recomputing everything, whatever servers were used before, if and only
      if the model id decides the embedding. */
  lemma CacheAgreesExactlyWhen<Item(!new)>(h: Host<Item>)
    requires HashesDecide(h)
    ensures CacheAgrees(h) <==> ModelDecides(h)
  {
    hide HashesDecide;
    if CacheAgrees(h) {
      forall b, b', model, item ensures Fresh(h, Endpoint(b, model), item) == Fresh(h, Endpoint(b', model), item) {
        var c, origins := OneEntry(h, b, model, item);
        assert c.entries["n"].vec == Fresh(h, Endpoint(b', c.model), item);
      }
    }
  }

  lemma OneEntry<Item(!new)>(h: Host<Item>, b: string, model: string, item: Item)
    returns (c: Cache, origins: map<Name, string>)
    requires HashesDecide(h)
    ensures Consistent(h, c, origins) && c.model == model && !Stale(h, c.entries, "n", item)
    ensures c.entries["n"].vec == Fresh(h, Endpoint(b, model), item)
  {
    c := Cache(model, map["n" := Entry(h.hashOf(item), Fresh(h, Endpoint(b, model), item))]);
    origins := map["n" := b];
  }

  /** A cache filled from one server answers for another that runs a model of the same id. */
  lemma OldServerAnswers()
    returns (h: Host<string>, c: Cache, origins: map<Name, string>, e: Endpoint, n: Name, item: string)
    ensures HashesDecide(h) && Consistent(h, c, origins) && c.model == e.model && !Stale(h, c.entries, n, item)
    ensures c.entries[n].vec != Fresh(h, e, item)
  {
    h := Host((e: Endpoint, text: string) => if e.base == "old" then [0] else [1], (x: string) => x, (x: string) => x);
    e, n, item := Endpoint("new", "embed"), "n", "text";
    c, origins := OneEntry(h, "old", "embed", item);
  }
}
