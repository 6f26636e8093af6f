/**
 * The generated file system facade: the generator registry and its root
 * set, the optional file cache, the dependency edges and the notification
 * log, with the operations that read and update them.
 */
module GenFS {
  import opened Results
  import opened Entries
  import opened GenRoute
  import opened Bus

  /**
   * cachedOpen as a step on the cache: a hit returns the cached snapshot; a
   * miss takes `inner` (the outcome of the inner open), snapshots the file
   * with `snapshot` (virtual.From) and stores it under `name`. The result
   * is the open's outcome and the new cache.
   */
  function CacheStep(cache: map<string, File>, name: string, inner: Result<File, Error>,
                     snapshot: File -> Result<File, Error>): (Result<File, Error>, map<string, File>)
  {
    if name in cache then (Ok(cache[name]), cache)
    else match inner
      case Fail(e) => (Fail(e), cache)
      case Ok(f) =>
        match snapshot(f)
        case Fail(e) => (Fail(e), cache)
        case Ok(v) => (Ok(v), cache[name := v])
  }

  /** A hit answers from the cache, whatever the inner open would have done, and changes nothing. */
  lemma CacheHit(cache: map<string, File>, name: string, inner: Result<File, Error>,
                 snapshot: File -> Result<File, Error>)
    requires name in cache
    ensures CacheStep(cache, name, inner, snapshot) == (Ok(cache[name]), cache)
  {
  }

  /**
   * A miss stores exactly the key `name` on success, and leaves the cache as
   * it was when the open or the snapshot fails, returning that error.
   */
  lemma CacheMiss(cache: map<string, File>, name: string, inner: Result<File, Error>,
                  snapshot: File -> Result<File, Error>)
    requires name !in cache
    ensures var (r, cache') := CacheStep(cache, name, inner, snapshot);
      && (r.Ok? <==> inner.Ok? && snapshot(inner.value).Ok?)
      && (r.Ok? ==> r == snapshot(inner.value) && cache'.Keys == cache.Keys + {name}
                    && cache'[name] == r.value
                    && forall k :: k in cache ==> cache'[k] == cache[k])
      && (r.Fail? ==> cache' == cache
                      && r.error == if inner.Fail? then inner.error else snapshot(inner.value).error)
  {
  }

  /** After a successful open the next open of the same name hits and returns the same snapshot. */
  lemma CacheSecondOpenHits(cache: map<string, File>, name: string, first: Result<File, Error>,
                            second: Result<File, Error>, snapshot: File -> Result<File, Error>)
    requires CacheStep(cache, name, first, snapshot).0.Ok?
    ensures var (r1, cache1) := CacheStep(cache, name, first, snapshot);
      CacheStep(cache1, name, second, snapshot) == (r1, cache1)
  {
  }

  lemma MergeListingOk(name: string, gen: string -> Result<File, Error>, dirfs: Option<RealFS>,
                       fromGen: seq<DirEntry>, fromReal: seq<DirEntry>)
    requires gen(name).Ok? && GeneratorEntries(gen(name).value) == Ok(fromGen)
    requires RealEntries(dirfs, name) == Ok(fromReal)
    ensures (KeepFirstKeeps({}, fromGen + fromReal);
      MergeListing(name, gen, dirfs) == Ok(Directory(name, Ok(SortByName(KeepFirst({}, fromGen + fromReal))))))
  {
  }

  lemma RootsOfUnion(a: set<string>, b: set<string>)
    ensures RootsOf(a + b) == RootsOf(a) + RootsOf(b)
  {
  }

  /** FileSystem together with its innerFS: one object holding the state both update. */
  class FileSystem<Gen> {
    const dirfs: Option<RealFS>          // the real tree; None for a nil dirfs
    const useCache: bool                 // a file cache was configured
    var cache: map<string, File>         // the file cache's contents
    var roots: set<string>               // roots: first segments with a generator
    var generators: map<string, Gen>     // dir.generators: path -> generator
    var edges: set<Edge>                 // the dependency graph
    var bus: seq<Action>                 // the notification bus, as a log
    ghost var resolved: seq<string>      // names handed to the inner open by the facade, in order

    /** Every root is the root of a registered path and every registered path's root is a root. */
    ghost predicate Valid()
      reads this
    {
      roots == RootsOf(generators.Keys) && (!useCache ==> cache == map[])
    }

    /**
     * New: nothing registered, linked or subscribed yet; the file cache, when
     * one is given, is installed as it is, with whatever files it already holds.
     */
    constructor (dirfs: Option<RealFS>, fileCache: Option<map<string, File>>)
      ensures Valid()
      ensures this.dirfs == dirfs && useCache == fileCache.Some?
      ensures cache == if fileCache.Some? then fileCache.value else map[]
      ensures roots == {} && generators == map[]
      ensures edges == {} && bus == [] && resolved == []
    {
      this.dirfs := dirfs;
      useCache := fileCache.Some?;
      cache := if fileCache.Some? then fileCache.value else map[];
      roots := {};
      generators := map[];
      edges := {};
      bus := [];
      resolved := [];
    }

    /**
     * Add: registers each generator under its path, replacing any earlier
     * one for that path, and records the path's root.
     */
    method Add(gens: map<string, Gen>)
      requires Valid()
      modifies this`roots, this`generators
      ensures Valid()
      ensures generators == old(generators) + gens
      ensures roots == old(roots) + RootsOf(gens.Keys)
      ensures forall p :: p in gens ==> Root(p) in roots && generators[p] == gens[p]
      ensures forall p :: p in old(generators) && p !in gens ==> generators[p] == old(generators)[p]
    {
      var todo := gens.Keys;
      ghost var done: set<string> := {};
      while todo != {}
        invariant done + todo == gens.Keys && done !! todo
        invariant roots == old(roots) + RootsOf(done)
        invariant generators.Keys == old(generators).Keys + done
        invariant forall p :: p in done ==> generators[p] == gens[p]
        invariant forall p :: p in old(generators) && p !in done ==> generators[p] == old(generators)[p]
        decreases todo
      {
        var path :| path in todo;
        roots := roots + {Root(path)};
        generators := generators[path := gens[path]];
        todo := todo - {path};
        RootsOfUnion(done, {path});
        done := done + {path};
      }
      RootsOfUnion(old(generators).Keys, gens.Keys);
    }

    /** innerFS.mergeEntries: the root listing of both sources. */
    method MergeEntries(name: string, gen: string -> Result<File, Error>) returns (r: Result<File, Error>)
      ensures r == MergeListing(name, gen, dirfs)
    {
      var file := gen(name);
      if file.Fail? {
        return Fail(file.error);
      }
      var entries := new EntrySet();
      var fromGen := GeneratorEntries(file.value);
      if fromGen.Fail? {
        return Fail(fromGen.error);
      }
      entries.Add(fromGen.value);
      ghost var seenGen := entries.seen;
      assert entries.entries == KeepFirst({}, fromGen.value);
      var fromReal := RealEntries(dirfs, name);
      if fromReal.Fail? {
        return Fail(fromReal.error);
      }
      entries.Add(fromReal.value);
      assert entries.entries == KeepFirst({}, fromGen.value) + KeepFirst(seenGen, fromReal.value);
      KeepFirstAppend({}, fromGen.value, fromReal.value);
      assert seenGen == {} + Names(fromGen.value);
      assert entries.entries == KeepFirst({}, fromGen.value + fromReal.value);
      var list := entries.List();
      MergeListingOk(name, gen, dirfs, fromGen.value, fromReal.value);
      r := Ok(Directory(name, Ok(list)));
    }

    /** innerFS.open: routes `name` (`gen` is the prefix tree's open). */
    method Resolve(name: string, gen: string -> Result<File, Error>) returns (r: Result<File, Error>)
      ensures r == Route(roots, dirfs, gen, name)
    {
      if name == "." {
        r := MergeEntries(name, gen);
        return;
      }
      var key := Root(name);
      if key in roots {
        return gen(name);
      }
      if dirfs.None? {
        return Fail(NotExist);
      }
      var file := dirfs.value.open(name);
      if file.Fail? {
        if IsNotExist(file.error) {
          return Fail(NotExist);
        }
        return Fail(file.error);
      }
      r := Ok(file.value);
    }

    /** innerFS.Open: the routed open with its error wrapped by the name. */
    method InnerOpen(name: string, gen: string -> Result<File, Error>) returns (r: Result<File, Error>)
      ensures r == OpenWrapped(name, Route(roots, dirfs, gen, name))
    {
      var file := Resolve(name, gen);
      if file.Fail? {
        return Fail(OpenFailed(name, file.error));
      }
      r := file;
    }

    /** cachedOpen: answers from the cache when it can and fills it on a successful miss. */
    method CachedOpen(name: string, gen: string -> Result<File, Error>, snapshot: File -> Result<File, Error>)
      returns (r: Result<File, Error>)
      requires Valid() && useCache
      modifies this`cache, this`resolved
      ensures Valid()
      ensures (r, cache) == CacheStep(old(cache), name, OpenWrapped(name, Route(roots, dirfs, gen, name)), snapshot)
      ensures resolved == if name in old(cache) then old(resolved) else old(resolved) + [name]
    {
      if name in cache {
        return Ok(cache[name]);
      }
      resolved := resolved + [name];
      var file := InnerOpen(name, gen);
      if file.Fail? {
        return Fail(file.error);
      }
      var vfile := snapshot(file.value);
      if vfile.Fail? {
        return Fail(vfile.error);
      }
      cache := cache[name := vfile.value];
      r := Ok(cache[name]);
    }

    /** Open: through the cache when one is configured, straight to the inner open otherwise. */
    method Open(name: string, gen: string -> Result<File, Error>, snapshot: File -> Result<File, Error>)
      returns (r: Result<File, Error>)
      requires Valid()
      modifies this`cache, this`resolved
      ensures Valid()
      ensures !useCache ==> r == OpenWrapped(name, Route(roots, dirfs, gen, name))
                            && cache == old(cache) && resolved == old(resolved) + [name]
      ensures useCache ==>
                (r, cache) == CacheStep(old(cache), name, OpenWrapped(name, Route(roots, dirfs, gen, name)), snapshot)
                && resolved == if name in old(cache) then old(resolved) else old(resolved) + [name]
    {
      if !useCache {
        resolved := resolved + [name];
        r := InnerOpen(name, gen);
        return;
      }
      r := CachedOpen(name, gen, snapshot);
    }

    /** innerFS.link: records that generating `from` consumed `to` under `event`. */
    method Link(from: string, to: string, event: Event)
      modifies this`edges
      ensures edges == old(edges) + {Edge(from, to, event)}
    {
      edges := edges + {Edge(from, to, event)};
    }

    /**
     * Subscribe: gated on fs.Stat of the name through the inner open. A
     * failing open returns its error and opens no subscription; otherwise a
     * subscription on topic `name` is opened, its handle being its position
     * in the bus log.
     */
    method Subscribe(name: string, gen: string -> Result<File, Error>) returns (r: Result<nat, Error>)
      modifies this`bus, this`resolved
      ensures resolved == old(resolved) + [name]
      ensures var o := OpenWrapped(name, Route(roots, dirfs, gen, name));
        && (o.Fail? ==> r == Fail(o.error) && bus == old(bus))
        && (o.Ok? ==> r == Ok(|old(bus)|) && bus == old(bus) + [Subscribed(name)])
    {
      resolved := resolved + [name];
      var stat := InnerOpen(name, gen);
      if stat.Fail? {
        return Fail(stat.error);
      }
      r := Ok(|bus|);
      bus := bus + [Subscribed(name)];
    }

    /**
     * Trigger: `ins` is what graph.Ins(path, event) returned, the dependents
     * the linked edges record for (path, event); the event's text is
     * published once to each of those nodes, in order, and nothing else is
     * published, so exactly the dependents receive something.
     */
    method Trigger(path: string, event: Event, ins: seq<string>)
      requires InsLists(edges, path, event, ins)
      modifies this`bus
      ensures bus == old(bus) + Publications(ins, event.String())
      ensures forall topic ::
                |Deliveries(bus[|old(bus)|..], topic)| > 0 <==> topic in Dependents(edges, path, event)
    {
      var k := 0;
      while k < |ins|
        invariant 0 <= k <= |ins|
        invariant bus == old(bus) + Publications(ins[..k], event.String())
      {
        assert Publications(ins[..k + 1], event.String())
            == Publications(ins[..k], event.String()) + [Published(ins[k], event.String())];
        bus := bus + [Published(ins[k], event.String())];
        k := k + 1;
      }
      assert ins[..k] == ins;
      assert bus[|old(bus)|..] == Publications(ins, event.String());
      forall topic
        ensures |Deliveries(bus[|old(bus)|..], topic)| > 0 <==> topic in Dependents(edges, path, event)
      {
        PublicationsReachDependents(edges, path, event, ins, topic);
      }
    }
  }
}
