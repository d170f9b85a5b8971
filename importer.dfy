/**
 * The importer of index.js as objects that change in place: the shared
 * pantry configuration (`config.pantries`) and one render's session (the
 * import-once cache that node-sass's `this` carries, and the imports that
 * wait for a pantry promise). Each method is proved against the functions
 * of module Resolution.
 */
module Importer {
  import opened Wrappers
  import opened Paths
  import opened Roux
  import opened Resolution

  /** `config.pantries` with the order of its keys, and the working directory paths resolve against. */
  class PantryConfig {
    const cwd: string
    var pantries: map<string, PantrySlot>
    var keys: seq<string>

    /** `keys` is `Object.keys(config.pantries)`: every key once. */
    ghost predicate Valid()
      reads this
    {
      && (forall i, j :: 0 <= i < j < |keys| ==> keys[i] != keys[j])
      && (forall k :: k in pantries <==> k in keys)
    }

    /** The importer factory: pantries given by location start as pending promises, descriptors are kept. */
    constructor (cwd: string, names: seq<string>, seeds: map<string, Seed>)
      requires forall i, j :: 0 <= i < j < |names| ==> names[i] != names[j]
      requires forall k :: k in seeds <==> k in names
      ensures Valid()
      ensures this.cwd == cwd && keys == names
      ensures pantries.Keys == seeds.Keys
      ensures forall k :: k in seeds ==> pantries[k] == Seeded(seeds[k])
    {
      this.cwd := cwd;
      keys := names;
      pantries := map k | k in seeds :: Seeded(seeds[k]);
    }

    /** `config.pantries[key] = slot`: a new key goes last, an existing key keeps its place. */
    method Put(key: string, slot: PantrySlot)
      requires Valid()
      modifies this
      ensures Valid()
      ensures pantries == old(pantries)[key := slot]
      ensures keys == if key in old(pantries) then old(keys) else old(keys) + [key]
    {
      if key !in pantries {
        keys := keys + [key];
      }
      pantries := pantries[key := slot];
    }

    /**
     * The loop of the relative-url branch: the first key, in key order,
     * whose value `Pantry.isPantry` accepts and whose resolved root is a
     * string prefix of `target`.
     */
    method FindPantryRoot(target: string) returns (found: Option<string>)
      ensures found == FirstMatch(keys, pantries, cwd, target)
    {
      var i := 0;
      while i < |keys|
        invariant 0 <= i <= |keys|
        invariant FirstMatch(keys[i..], pantries, cwd, target) == FirstMatch(keys, pantries, cwd, target)
      {
        assert keys[i..][1..] == keys[i + 1..];
        var key := keys[i];
        if key in pantries {
          var slot := pantries[key];
          if slot.Loaded? && slot.isInstance {
            var root := Absolute(cwd, slot.pantry.path);
            if StartsWith(target, root) {
              return Some(key);
            }
          }
        }
        i := i + 1;
      }
      return None;
    }
  }

  /** One render: the importer bound to node-sass's `this`. */
  class Session {
    const config: PantryConfig
    var importCache: set<string>
    var discoveries: seq<string>
    var pending: map<nat, Request>
    var nextTicket: nat

    /** The first call on a fresh `this` finds no cache and starts an empty one. */
    constructor (config: PantryConfig)
      ensures this.config == config
      ensures importCache == {} && discoveries == [] && pending == map[] && nextTicket == 0
    {
      this.config := config;
      importCache := {};
      discoveries := [];
      pending := map[];
      nextTicket := 0;
    }

    /** The session and its configuration as one value of Resolution.State. */
    function Snapshot(): State
      reads this, config
    {
      State(config.cwd, config.pantries, config.keys, importCache, discoveries, pending, nextTicket)
    }

    /** `importOnce`: check the cache, record `file` if it is new. */
    method ImportOnce(file: string) returns (r: Reply)
      modifies this`importCache
      ensures (r, importCache) == Resolution.ImportOnce(old(importCache), file)
    {
      if file in importCache {
        return Contents("");
      }
      importCache := importCache + {file};
      return File(file);
    }

    /** `getImportPath`: look up the ingredient, fail without touching the cache, or pass the entry point through `importOnce`. */
    method GetImportPath(p: Pantry, name: string) returns (r: Reply)
      modifies this`importCache
      ensures (r, importCache) == Resolution.GetImportPath(old(importCache), config.cwd, p, name)
    {
      var entry := EntryPoint(config.cwd, p, name);
      match entry
      case Err(e) =>
        return Error(e);
      case Ok(file) =>
        r := ImportOnce(file);
    }

    /** `Importer(url, prev, done)`: returns at once, or returns `Undefined` and leaves a waiting import behind. */
    method Import(url: string, prev: string) returns (r: Reply)
      modifies this
      ensures (Snapshot(), r) == ImportStep(old(Snapshot()), url, prev)
    {
      if |url| > 0 && url[0] == '.' {
        var target := Resolve(config.cwd, Dir(prev), url);
        var found := config.FindPantryRoot(target);
        if found.Some? {
          return if target in importCache then Contents("") else Null;
        }
      }
      var parsed := ParseIngredientPath(url);
      if parsed.None? {
        return Null;
      }
      var key := parsed.value.PantryKey();
      if key in config.pantries && config.pantries[key].Loaded? {
        r := GetImportPath(config.pantries[key].pantry, parsed.value.ingredient);
        return;
      }
      if key !in config.pantries {
        discoveries := discoveries + [key];
      }
      pending := pending[nextTicket := Request(url, key, parsed.value.ingredient)];
      nextTicket := nextTicket + 1;
      return Undefined;
    }

    /**
     * The promise an import waits on settles: on success the pantry is
     * stored and `done` gets `getImportPath`'s result; on failure `done` gets
     * "Failed to resolve <url>". `None` means no `done` is called.
     */
    method Complete(ticket: nat, outcome: Outcome) returns (done: Option<Reply>)
      requires config.Valid()
      modifies this, config
      ensures config.Valid()
      ensures (Snapshot(), done) == CompleteStep(old(Snapshot()), ticket, outcome)
    {
      if ticket !in pending {
        return None;
      }
      var req := pending[ticket];
      pending := pending - {ticket};
      match outcome
      case Rejected =>
        return Some(Error(FailedToResolve(req.url)));
      case Resolved(p) =>
        config.Put(req.key, Loaded(p, true));
        var reply := GetImportPath(p, req.ingredient);
        return Some(reply);
    }
  }
}
