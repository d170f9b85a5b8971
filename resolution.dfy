/**
 * The import resolver of index.js as functions over an explicit state:
 * the ingredient lookup of `getImportPath`, the once-only check of
 * `importOnce`, the dispatch of `Importer`, and the settling of an
 * asynchronous pantry lookup. The classes in module Importer are proved
 * against these functions.
 */
module Resolution {
  import opened Wrappers
  import opened Paths
  import opened Roux

  /** The errors the importer hands back, carrying the names its messages format. */
  datatype ImportError =
    | NoSuchIngredient(pantry: string, ingredient: string)
    | NoSassEntryPoint(pantry: string, ingredient: string)
    | FailedToResolve(url: string)

  /**
   * What the importer gives node-sass: the pass-through sentinel `Null`,
   * `{file}`, `{contents}`, an `Error`, or `undefined` (answer comes later
   * through `done`).
   */
  datatype Reply = Null | File(file: string) | Contents(contents: string) | Error(error: ImportError) | Undefined

  /**
   * A value of the pantry map. `Loaded` is any truthy value without a `then`
   * method; `isInstance` says whether `Pantry.isPantry` accepts it (plain
   * descriptor objects are used as pantries but skipped by the relative-url
   * check). `Pending` is the promise `roux.initialize` gave for a pantry
   * configured by location.
   */
  datatype PantrySlot = Loaded(pantry: Pantry, isInstance: bool) | Pending(location: string)

  /**
   * A value of `config.pantries` as given to the importer factory: a
   * descriptor object, or the location of a pantry to initialise.
   */
  datatype Seed = Descriptor(pantry: Pantry, isInstance: bool) | Location(path: string)

  /** The factory's `_.mapValues`: a location becomes the promise `roux.initialize` returns; anything else is kept. */
  function Seeded(seed: Seed): (slot: PantrySlot)
    ensures slot.Pending? <==> seed.Location?
    ensures seed.Descriptor? ==> slot == Loaded(seed.pantry, seed.isInstance)
    ensures seed.Location? ==> slot == Pending(seed.path)
  {
    match seed
    case Descriptor(p, isInstance) => Loaded(p, isInstance)
    case Location(path) => Pending(path)
  }

  /** An import waiting for its pantry: the `.then`/`.catch` pair and its `done`. */
  datatype Request = Request(url: string, key: string, ingredient: string)

  /** How the promise of a pantry settles. */
  datatype Outcome = Resolved(pantry: Pantry) | Rejected

  /**
   * Everything the importer reads or writes: the working directory, the
   * pantry map with its key order (`Object.keys`), the import-once cache of
   * the current render, the pantry names handed to `roux.resolve`, and the
   * imports still waiting, by ticket.
   */
  datatype State = State(
    cwd: string,
    pantries: map<string, PantrySlot>,
    keys: seq<string>,
    cache: set<string>,
    discoveries: seq<string>,
    pending: map<nat, Request>,
    nextTicket: nat)

  /** A waiting import came from a url that parses to its pantry key and ingredient. */
  predicate IsRequestFor(req: Request) {
    var parsed := ParseIngredientPath(req.url);
    parsed.Some? && parsed.value.PantryKey() == req.key && parsed.value.ingredient == req.ingredient
  }

  /**
   * The shape every reachable state has: `keys` lists each map key once,
   * tickets are issued in order, and every waiting import is one the
   * dispatch sent to the asynchronous path.
   */
  ghost predicate WellFormed(s: State) {
    && (forall i, j :: 0 <= i < j < |s.keys| ==> s.keys[i] != s.keys[j])
    && (forall k :: k in s.pantries <==> k in s.keys)
    && (forall t :: t in s.pending ==> t < s.nextTicket && IsRequestFor(s.pending[t]))
  }

  /** `config.pantries[key] = slot` on a JavaScript object: a new key goes last, an old one keeps its place. */
  function SetSlot(s: State, key: string, slot: PantrySlot): (r: State)
    ensures r.pantries == s.pantries[key := slot]
    ensures r == s.(pantries := r.pantries, keys := r.keys)
    ensures s.keys <= r.keys
    ensures (forall k :: k in s.pantries <==> k in s.keys) ==>
              (forall k :: k in r.keys <==> k in s.keys || k == key) && (forall k :: k in r.pantries <==> k in r.keys)
    ensures (forall k :: k in s.pantries <==> k in s.keys) && (forall i, j :: 0 <= i < j < |s.keys| ==> s.keys[i] != s.keys[j]) ==>
              forall i, j :: 0 <= i < j < |r.keys| ==> r.keys[i] != r.keys[j]
  {
    s.(pantries := s.pantries[key := slot],
       keys := if key in s.pantries then s.keys else s.keys + [key])
  }

  /**
   * The pure part of `getImportPath`: the entry-point file of `name` in
   * `p`, or the error for a missing ingredient or a missing Sass entry point.
   */
  function EntryPoint(cwd: string, p: Pantry, name: string): (r: Result<string, ImportError>)
    ensures r == Err(NoSuchIngredient(p.name, name)) <==> name !in p.ingredients
    ensures r == Err(NoSassEntryPoint(p.name, name)) <==>
              name in p.ingredients && p.ingredients[name].sassEntry.None?
    ensures r.Ok? <==> name in p.ingredients && p.ingredients[name].sassEntry.Some?
    ensures r.Ok? ==> IsAbsolute(r.value)
    ensures r.Ok? && NamesOnly(p.ingredients[name].sassEntry.value) ==>
              r.value == Child(Absolute(cwd, p.ingredients[name].path), p.ingredients[name].sassEntry.value)
    ensures r.Ok? && !IsAbsolute(p.ingredients[name].sassEntry.value) && NoParent(p.ingredients[name].sassEntry.value) ==>
              StartsWith(r.value, Absolute(cwd, p.ingredients[name].path))
  {
    if name !in p.ingredients then Err(NoSuchIngredient(p.name, name))
    else
      var ingredient := p.ingredients[name];
      match ingredient.sassEntry
      case None => Err(NoSassEntryPoint(p.name, name))
      case Some(filename) => Ok(Resolve(cwd, ingredient.path, filename))
  }

  /** `importOnce`: the new reply and the cache afterwards. */
  function ImportOnce(cache: set<string>, file: string): (r: (Reply, set<string>))
    ensures r.1 == cache + {file}
    ensures r.0.File? <==> file !in cache
    ensures r.0.File? ==> r.0.file == file
    ensures !r.0.File? ==> r.0 == Contents("")
  {
    if file in cache then (Contents(""), cache) else (File(file), cache + {file})
  }

  /** `getImportPath`: the reply and the cache afterwards. */
  function GetImportPath(cache: set<string>, cwd: string, p: Pantry, name: string): (r: (Reply, set<string>))
    ensures r.0.Error? <==> EntryPoint(cwd, p, name).Err?
    ensures name !in p.ingredients ==> r == (Error(NoSuchIngredient(p.name, name)), cache)
    ensures name in p.ingredients && p.ingredients[name].sassEntry.None? ==>
              r == (Error(NoSassEntryPoint(p.name, name)), cache)
    ensures r.0 !in {Null, Undefined}
    ensures r.0.File? ==> r.0.file !in cache && r.1 == cache + {r.0.file}
    ensures !r.0.File? ==> r.1 == cache || r.1 == cache + {EntryPoint(cwd, p, name).value}
  {
    match EntryPoint(cwd, p, name)
    case Err(e) => (Error(e), cache)
    case Ok(file) => ImportOnce(cache, file)
  }

  /** A pantry slot whose resolved root is a string prefix of `target` (index.js, relative branch). */
  predicate RootContains(cwd: string, slot: PantrySlot, target: string) {
    slot.Loaded? && slot.isInstance && StartsWith(target, Absolute(cwd, slot.pantry.path))
  }

  /** Key `i` names a pantry whose root contains `target`. */
  predicate MatchesAt(keys: seq<string>, pantries: map<string, PantrySlot>, cwd: string, target: string, i: int)
    requires 0 <= i < |keys|
  {
    keys[i] in pantries && RootContains(cwd, pantries[keys[i]], target)
  }

  /** The first key, in key order, whose pantry root contains `target`. */
  function FirstMatch(keys: seq<string>, pantries: map<string, PantrySlot>, cwd: string, target: string): (r: Option<string>)
    ensures r.Some? ==> r.value in keys && r.value in pantries && RootContains(cwd, pantries[r.value], target)
  {
    if keys == [] then None
    else if MatchesAt(keys, pantries, cwd, target, 0) then Some(keys[0])
    else FirstMatch(keys[1..], pantries, cwd, target)
  }

  /** The absolute form of a relative url, against the directory of the importing file. */
  function RelativeTarget(cwd: string, url: string, prev: string): string {
    Resolve(cwd, Dir(prev), url)
  }

  /** The relative-url branch applies: url starts with '.' and lies under a loaded pantry's root. */
  predicate UnderPantry(s: State, url: string, prev: string) {
    |url| > 0 && url[0] == '.' &&
    FirstMatch(s.keys, s.pantries, s.cwd, RelativeTarget(s.cwd, url, prev)).Some?
  }

  /** One call `Importer(url, prev, done)`: the state afterwards and the value returned. */
  function ImportStep(s: State, url: string, prev: string): (r: (State, Reply))
    ensures r.0.cwd == s.cwd && r.0.pantries == s.pantries && r.0.keys == s.keys
    ensures r.1 == Undefined <==> r.0.nextTicket == s.nextTicket + 1
    ensures r.1 != Undefined ==>
              r.0.pending == s.pending && r.0.nextTicket == s.nextTicket && r.0.discoveries == s.discoveries
    ensures r.1.File? ==> r.1.file !in s.cache && r.0.cache == s.cache + {r.1.file}
    ensures !r.1.File? ==> r.0.cache == s.cache
  {
    if UnderPantry(s, url, prev) then
      (s, if RelativeTarget(s.cwd, url, prev) in s.cache then Contents("") else Null)
    else
      match ParseIngredientPath(url)
      case None => (s, Null)
      case Some(path) =>
        var key := path.PantryKey();
        if key in s.pantries && s.pantries[key].Loaded? then
          var (reply, cache) := GetImportPath(s.cache, s.cwd, s.pantries[key].pantry, path.ingredient);
          (s.(cache := cache), reply)
        else
          var s' := s.(pending := s.pending[s.nextTicket := Request(url, key, path.ingredient)],
                       nextTicket := s.nextTicket + 1,
                       discoveries := if key in s.pantries then s.discoveries else s.discoveries + [key]);
          (s', Undefined)
  }

  /**
   * The promise behind `ticket` settles with `outcome`: the state afterwards
   * and the value passed to `done` (`None` when no import waits on `ticket`).
   */
  function CompleteStep(s: State, ticket: nat, outcome: Outcome): (r: (State, Option<Reply>))
    ensures r.1.None? <==> ticket !in s.pending
    ensures r.0.pending == s.pending - {ticket}
    ensures r.0.cwd == s.cwd && r.0.nextTicket == s.nextTicket && r.0.discoveries == s.discoveries
    ensures r.1.Some? ==> r.1.value !in {Null, Undefined}
    ensures outcome.Rejected? || r.1.None? ==> r.0.pantries == s.pantries && r.0.keys == s.keys
    ensures r.1.Some? && r.1.value.File? ==> r.1.value.file !in s.cache && r.0.cache == s.cache + {r.1.value.file}
    ensures !(r.1.Some? && r.1.value.File?) ==> r.0.cache == s.cache
  {
    if ticket !in s.pending then (s, None)
    else
      var req := s.pending[ticket];
      var s1 := s.(pending := s.pending - {ticket});
      match outcome
      case Rejected => (s1, Some(Error(FailedToResolve(req.url))))
      case Resolved(p) =>
        var s2 := SetSlot(s1, req.key, Loaded(p, true));
        var (reply, cache) := GetImportPath(s2.cache, s2.cwd, p, req.ingredient);
        (s2.(cache := cache), Some(reply))
  }

  /** What happens to the importer: node-sass calls it, or a pantry promise settles. */
  datatype Event = Call(url: string, prev: string) | Settle(ticket: nat, outcome: Outcome)

  /** One event: the state afterwards and the replies node-sass receives (returned or passed to `done`). */
  function Step(s: State, e: Event): (State, seq<Reply>) {
    match e
    case Call(url, prev) =>
      var (s', r) := ImportStep(s, url, prev);
      (s', [r])
    case Settle(ticket, outcome) =>
      var (s', d) := CompleteStep(s, ticket, outcome);
      (s', if d.Some? then [d.value] else [])
  }

  /** A whole render: the events in order, the final state and every reply node-sass receives. */
  function Run(s: State, events: seq<Event>): (State, seq<Reply>)
    decreases |events|
  {
    if events == [] then (s, [])
    else
      var (s1, r1) := Step(s, events[0]);
      var (s2, r2) := Run(s1, events[1..]);
      (s2, r1 + r2)
  }

  /** How many replies hand out `file` as `{file}`. */
  function FileCount(replies: seq<Reply>, file: string): nat {
    if replies == [] then 0
    else (if replies[0] == File(file) then 1 else 0) + FileCount(replies[1..], file)
  }
}
