/**
 * What the resolver of index.js promises, proved about the functions of
 * module Resolution: once-only emission, no cache change on error, the
 * relative-url rule, synchronous and asynchronous dispatch, and, over a
 * whole render, that every entry point is handed out as a file at most once.
 */
module Properties {
  import opened Wrappers
  import opened Paths
  import opened Roux
  import opened Resolution

  /**
   * `importOnce` twice in a row: the second call answers with empty
   * contents and leaves the cache as the first call left it; a file already
   * recorded leaves the cache as it was.
   */
  lemma ImportOnceRepeat(cache: set<string>, file: string)
    ensures file in cache ==> ImportOnce(cache, file).1 == cache
    ensures ImportOnce(ImportOnce(cache, file).1, file) == (Contents(""), cache + {file})
  {
  }

  /**
   * On success `getImportPath` hands out the entry point the first time and
   * empty contents on every later call with the same cache history.
   */
  lemma GetImportPathOnce(cache: set<string>, cwd: string, p: Pantry, name: string)
    requires EntryPoint(cwd, p, name).Ok?
    ensures var file := EntryPoint(cwd, p, name).value;
            var (r1, c1) := GetImportPath(cache, cwd, p, name);
            && c1 == cache + {file}
            && (r1 == File(file) <==> file !in cache)
            && GetImportPath(c1, cwd, p, name) == (Contents(""), c1)
  {
  }

  /** FirstMatch finds the first matching key in key order, and finds none only when no key matches. */
  lemma {:induction false} FirstMatchIsFirst(keys: seq<string>, pantries: map<string, PantrySlot>, cwd: string, target: string)
    ensures FirstMatch(keys, pantries, cwd, target).None? <==>
              forall i :: 0 <= i < |keys| ==> !MatchesAt(keys, pantries, cwd, target, i)
    ensures FirstMatch(keys, pantries, cwd, target).Some? ==>
              exists i :: 0 <= i < |keys| && keys[i] == FirstMatch(keys, pantries, cwd, target).value
                && MatchesAt(keys, pantries, cwd, target, i)
                && forall j :: 0 <= j < i ==> !MatchesAt(keys, pantries, cwd, target, j)
    decreases |keys|
  {
    if keys != [] {
      var tail := keys[1..];
      FirstMatchIsFirst(tail, pantries, cwd, target);
      if MatchesAt(keys, pantries, cwd, target, 0) {
        assert FirstMatch(keys, pantries, cwd, target) == Some(keys[0]);
      } else {
        var r := FirstMatch(tail, pantries, cwd, target);
        assert FirstMatch(keys, pantries, cwd, target) == r;
        MatchesShift(keys, pantries, cwd, target);
        if r.Some? {
          var i :| 0 <= i < |tail| && tail[i] == r.value
                   && MatchesAt(tail, pantries, cwd, target, i)
                   && forall j :: 0 <= j < i ==> !MatchesAt(tail, pantries, cwd, target, j);
          assert keys[i + 1] == r.value && MatchesAt(keys, pantries, cwd, target, i + 1);
          assert forall j :: 0 <= j < i + 1 ==> !MatchesAt(keys, pantries, cwd, target, j);
        } else {
          assert forall i :: 0 <= i < |keys| ==> !MatchesAt(keys, pantries, cwd, target, i);
        }
      }
    }
  }

  /** Key `i` of `keys` is key `i - 1` of its tail. */
  lemma MatchesShift(keys: seq<string>, pantries: map<string, PantrySlot>, cwd: string, target: string)
    requires |keys| > 0
    ensures forall i :: 1 <= i < |keys| ==>
              MatchesAt(keys, pantries, cwd, target, i) == MatchesAt(keys[1..], pantries, cwd, target, i - 1)
  {
  }

  /**
   * A relative url under a loaded pantry's root is answered from the cache
   * alone: empty contents when that exact path was handed out, the sentinel
   * otherwise; nothing is recorded and nothing else changes.
   */
  lemma RelativeUnderPantry(s: State, url: string, prev: string)
    requires |url| > 0 && url[0] == '.'
    requires exists i :: 0 <= i < |s.keys| && MatchesAt(s.keys, s.pantries, s.cwd, RelativeTarget(s.cwd, url, prev), i)
    ensures ImportStep(s, url, prev).0 == s
    ensures ImportStep(s, url, prev).1 == Contents("") <==> RelativeTarget(s.cwd, url, prev) in s.cache
    ensures ImportStep(s, url, prev).1 == Null <==> RelativeTarget(s.cwd, url, prev) !in s.cache
  {
    FirstMatchIsFirst(s.keys, s.pantries, s.cwd, RelativeTarget(s.cwd, url, prev));
  }

  /**
   * Inside an ingredient's directory, `./<entry file>` resolves to the very
   * path the ingredient's import hands out. So once that import gave the
   * file, the relative import of it gets empty contents; before, it gets the
   * sentinel.
   */
  lemma RelativeSeesEntryPoint(s: State, key: string, name: string, prev: string)
    requires key in s.keys && key in s.pantries
    requires s.pantries[key].Loaded? && s.pantries[key].isInstance
    requires name in s.pantries[key].pantry.ingredients
    requires s.pantries[key].pantry.ingredients[name].sassEntry.Some?
    requires NamesOnly(s.pantries[key].pantry.ingredients[name].sassEntry.value)
    requires Absolute(s.cwd, Dir(prev)) == Absolute(s.cwd, s.pantries[key].pantry.ingredients[name].path)
    requires StartsWith(Absolute(s.cwd, s.pantries[key].pantry.ingredients[name].path),
                        Absolute(s.cwd, s.pantries[key].pantry.path))
    ensures var p := s.pantries[key].pantry;
            var file := EntryPoint(s.cwd, p, name).value;
            ImportStep(s, "./" + p.ingredients[name].sassEntry.value, prev) ==
              (s, if file in s.cache then Contents("") else Null)
  {
    var p := s.pantries[key].pantry;
    var ingredient := p.ingredients[name];
    var f := ingredient.sassEntry.value;
    var file := EntryPoint(s.cwd, p, name).value;
    var url := "./" + f;
    NamesAreRelative(f);
    DotSlashIsTransparent(s.cwd, Dir(prev), f);
    assert RelativeTarget(s.cwd, url, prev) == file;
    ChildBelow(Absolute(s.cwd, ingredient.path), f, Absolute(s.cwd, p.path));
    var i :| 0 <= i < |s.keys| && s.keys[i] == key;
    assert MatchesAt(s.keys, s.pantries, s.cwd, file, i);
    RelativeUnderPantry(s, url, prev);
  }

  /**
   * A url starting with '.' or '/' never changes the importer's state and
   * never defers: it passes through unless it is a relative url under a
   * loaded pantry root whose exact path was handed out before.
   */
  lemma FilePathsChangeNothing(s: State, url: string, prev: string)
    requires |url| > 0 && (url[0] == '.' || url[0] == '/')
    ensures ImportStep(s, url, prev).0 == s
    ensures ImportStep(s, url, prev).1 == Null || (url[0] == '.' && ImportStep(s, url, prev).1 == Contents(""))
    ensures !UnderPantry(s, url, prev) ==> ImportStep(s, url, prev).1 == Null
    ensures url[0] == '/' ==> ImportStep(s, url, prev).1 == Null
  {
  }

  /**
   * A relative url under no loaded pantry root, and any url that is not an
   * ingredient path, passes through: the sentinel, state unchanged.
   */
  lemma NotAnIngredientPassesThrough(s: State, url: string, prev: string)
    requires !UnderPantry(s, url, prev)
    requires ParseIngredientPath(url).None?
    ensures ImportStep(s, url, prev) == (s, Null)
  {
  }

  /**
   * When the url names a loaded pantry, the answer is `getImportPath`'s,
   * returned at once: nothing waits, and only the cache may change.
   */
  lemma LoadedIsSynchronous(s: State, url: string, prev: string)
    requires ParseIngredientPath(url).Some?
    requires var key := ParseIngredientPath(url).value.PantryKey();
             key in s.pantries && s.pantries[key].Loaded?
    ensures var path := ParseIngredientPath(url).value;
            var (reply, cache) := GetImportPath(s.cache, s.cwd, s.pantries[path.PantryKey()].pantry, path.ingredient);
            ImportStep(s, url, prev) == (s.(cache := cache), reply)
    ensures ImportStep(s, url, prev).1 != Undefined
  {
  }

  /**
   * When the pantry is absent or a promise, the importer returns `undefined`
   * and leaves a waiting import behind; the pantry map and the cache are
   * untouched, and `roux.resolve` is asked exactly when the slot is absent.
   */
  lemma MissDefers(s: State, url: string, prev: string)
    requires ParseIngredientPath(url).Some?
    requires var key := ParseIngredientPath(url).value.PantryKey();
             key !in s.pantries || s.pantries[key].Pending?
    ensures var path := ParseIngredientPath(url).value;
            var key := path.PantryKey();
            var (s', reply) := ImportStep(s, url, prev);
            && reply == Undefined
            && s'.pantries == s.pantries && s'.keys == s.keys && s'.cache == s.cache
            && s'.pending == s.pending[s.nextTicket := Request(url, key, path.ingredient)]
            && s'.nextTicket == s.nextTicket + 1
            && s'.discoveries == if key in s.pantries then s.discoveries else s.discoveries + [key]
  {
  }

  /**
   * No request coalescing: two imports of the same absent pantry each start
   * their own lookup, and the slot stays absent until one of them settles.
   */
  lemma NoCoalescing(s: State, url: string, prev1: string, prev2: string)
    requires ParseIngredientPath(url).Some?
    requires ParseIngredientPath(url).value.PantryKey() !in s.pantries
    ensures var key := ParseIngredientPath(url).value.PantryKey();
            var s1 := ImportStep(s, url, prev1).0;
            var s2 := ImportStep(s1, url, prev2).0;
            && key !in s2.pantries
            && s2.discoveries == s.discoveries + [key, key]
            && s2.nextTicket == s.nextTicket + 2
            && s.nextTicket in s2.pending && s.nextTicket + 1 in s2.pending
  {
  }

  /**
   * A rejected pantry promise reaches `done` as "Failed to resolve <url>";
   * the pantry map and the cache are unchanged, and the import no longer waits.
   */
  lemma SettleRejected(s: State, ticket: nat)
    requires ticket in s.pending
    ensures var (s', d) := CompleteStep(s, ticket, Rejected);
            && d == Some(Error(FailedToResolve(s.pending[ticket].url)))
            && s'.pantries == s.pantries && s'.keys == s.keys && s'.cache == s.cache
            && s'.pending == s.pending - {ticket}
  {
  }

  /**
   * A resolved pantry promise stores the pantry under the import's key and
   * hands `done` the `getImportPath` result for that pantry.
   */
  lemma SettleResolved(s: State, ticket: nat, p: Pantry)
    requires ticket in s.pending
    ensures var req := s.pending[ticket];
            var (s', d) := CompleteStep(s, ticket, Resolved(p));
            var (reply, cache) := GetImportPath(s.cache, s.cwd, p, req.ingredient);
            && d == Some(reply)
            && s'.pantries == s.pantries[req.key := Loaded(p, true)]
            && s'.cache == cache
            && s'.pending == s.pending - {ticket}
  {
  }

  /** `done` is called at most once per import: a ticket that was settled does not settle again. */
  lemma SettleOnce(s: State, ticket: nat, first: Outcome, second: Outcome)
    ensures var s' := CompleteStep(s, ticket, first).0;
            CompleteStep(s', ticket, second) == (s', None)
  {
  }

  /**
   * Once a pantry promise resolved, the same url is answered synchronously,
   * and an entry point handed to `done` comes back as empty contents.
   */
  lemma SettledPantryIsSynchronous(s: State, ticket: nat, p: Pantry, prev: string)
    requires WellFormed(s)
    requires ticket in s.pending
    ensures var url := s.pending[ticket].url;
            var (s', d) := CompleteStep(s, ticket, Resolved(p));
            && ImportStep(s', url, prev).1 != Undefined
            && (d.value.File? ==> ImportStep(s', url, prev) == (s', Contents("")))
  {
  }

  /**
   * An ingredient handed out as a file comes back as empty contents on the
   * next import of the same url, from whichever file imports it.
   */
  lemma SecondImportIsEmpty(s: State, url: string, prev1: string, prev2: string)
    requires ImportStep(s, url, prev1).1.File?
    ensures var s' := ImportStep(s, url, prev1).0;
            ImportStep(s', url, prev2) == (s', Contents(""))
  {
  }

  /** Dispatch and settling keep the importer's state well formed. */
  lemma StepsPreserveWellFormed(s: State, e: Event)
    requires WellFormed(s)
    ensures WellFormed(Step(s, e).0)
  {
    match e
    case Call(url, prev) => ImportStepWellFormed(s, url, prev);
    case Settle(ticket, outcome) => CompleteStepWellFormed(s, ticket, outcome);
  }

  /** A call keeps the state well formed: only a waiting import for the parsed url may be added. */
  lemma ImportStepWellFormed(s: State, url: string, prev: string)
    requires WellFormed(s)
    ensures WellFormed(ImportStep(s, url, prev).0)
  {
  }

  /** Settling keeps the state well formed: the ticket goes, and a stored pantry keeps the key order in step. */
  lemma CompleteStepWellFormed(s: State, ticket: nat, outcome: Outcome)
    requires WellFormed(s)
    ensures WellFormed(CompleteStep(s, ticket, outcome).0)
  {
  }

  /** FileCount adds up over concatenation. */
  lemma {:induction false} FileCountAppend(a: seq<Reply>, b: seq<Reply>, file: string)
    ensures FileCount(a + b, file) == FileCount(a, file) + FileCount(b, file)
    decreases |a|
  {
    if a == [] {
      assert a + b == b;
    } else {
      assert (a + b)[1..] == a[1..] + b;
      FileCountAppend(a[1..], b, file);
    }
  }

  /**
   * One event hands out `file` at most once, only when it was not yet
   * recorded, and records it exactly when it hands it out.
   */
  lemma StepEmitsFresh(s: State, e: Event, file: string)
    ensures var (s', rs) := Step(s, e);
            && (file in s'.cache <==> file in s.cache || FileCount(rs, file) > 0)
            && FileCount(rs, file) <= (if file in s.cache then 0 else 1)
  {
  }

  /**
   * The once-only guarantee over a whole render: whatever the order of
   * imports and settling promises, an entry point already recorded is never
   * handed out as a file, any other at most once, and the cache afterwards
   * holds exactly the recorded files plus those handed out.
   */
  lemma {:induction false} EachFileHandedOutOnce(s: State, events: seq<Event>, file: string)
    ensures var (s', rs) := Run(s, events);
            && (file in s'.cache <==> file in s.cache || FileCount(rs, file) > 0)
            && FileCount(rs, file) <= (if file in s.cache then 0 else 1)
    decreases |events|
  {
    if events != [] {
      var (s1, r1) := Step(s, events[0]);
      var (s2, r2) := Run(s1, events[1..]);
      StepEmitsFresh(s, events[0], file);
      EachFileHandedOutOnce(s1, events[1..], file);
      FileCountAppend(r1, r2, file);
    }
  }

  /** The descriptor object the synchronous tests seed the pantry map with: one ingredient `name` with Sass entry `entry`. */
  function MockPantry(root: string, name: string, entry: string): Pantry {
    Pantry("", root, map[name := Ingredient(root + "/" + name, Some(entry))])
  }

  /** Under a normalised root, the mock's one ingredient has its entry point at `<root>/<name>/<entry>`. */
  lemma MockEntryPoint(cwd: string, root: string, name: string, entry: string)
    requires Normal(root) == root && root != "/"
    requires IsName(name) && IsName(entry)
    ensures EntryPoint(cwd, MockPantry(root, name, entry), name) == Ok(root + "/" + name + "/" + entry)
  {
    var dir := root + "/" + name;
    SplitSingle(name);
    SplitSingle(entry);
    NormalChild(root, name);
    AbsoluteOfNormal(cwd, dir);
  }

  /**
   * A pantry seeded as a descriptor answers `<pantry>/<ingredient>`
   * synchronously with the entry point under the ingredient's directory, and
   * the second import gives empty contents.
   */
  lemma CachedPantryScenario(pantry: string, name: string, entry: string, root: string, prev: string)
    requires IngredientPath(None, pantry, name).Valid() && IsName(name) && IsName(entry)
    requires Normal(root) == root && root != "/"
    ensures var s := State("/cwd", map[pantry := Loaded(MockPantry(root, name, entry), false)], [pantry], {}, [], map[], 0);
            var (s1, r1) := ImportStep(s, pantry + "/" + name, prev);
            && r1 == File(root + "/" + name + "/" + entry)
            && ImportStep(s1, pantry + "/" + name, prev).1 == Contents("")
  {
    var s := State("/cwd", map[pantry := Loaded(MockPantry(root, name, entry), false)], [pantry], {}, [], map[], 0);
    var url := pantry + "/" + name;
    FormatParse(IngredientPath(None, pantry, name));
    MockEntryPoint("/cwd", root, name, entry);
    LoadedIsSynchronous(s, url, prev);
    SecondImportIsEmpty(s, url, prev, prev);
  }

  /** `@<namespace>/<pantry>/<ingredient>` is looked up under the key `@<namespace>/<pantry>` and answered synchronously. */
  lemma NamespacedPantryScenario(ns: string, pantry: string, name: string, entry: string, root: string, prev: string)
    requires IngredientPath(Some(ns), pantry, name).Valid() && IsName(name) && IsName(entry)
    requires Normal(root) == root && root != "/"
    ensures var key := "@" + ns + "/" + pantry;
            var s := State("/cwd", map[key := Loaded(MockPantry(root, name, entry), false)], [key], {}, [], map[], 0);
            ImportStep(s, key + "/" + name, prev).1 == File(root + "/" + name + "/" + entry)
  {
    var key := "@" + ns + "/" + pantry;
    var s := State("/cwd", map[key := Loaded(MockPantry(root, name, entry), false)], [key], {}, [], map[], 0);
    var spaced := IngredientPath(Some(ns), pantry, name);
    assert spaced.PantryKey() == key;
    FormatParse(spaced);
    MockEntryPoint("/cwd", root, name, entry);
    LoadedIsSynchronous(s, key + "/" + name, prev);
  }

  /** With only `@<namespace>/<pantry>` in the map, the bare `<pantry>/<ingredient>` finds no pantry and waits. */
  lemma BareKeyIsSeparate(ns: string, pantry: string, name: string, p: Pantry, prev: string)
    requires IngredientPath(None, pantry, name).Valid()
    ensures var key := "@" + ns + "/" + pantry;
            var s := State("/cwd", map[key := Loaded(p, false)], [key], {}, [], map[], 0);
            ImportStep(s, pantry + "/" + name, prev).1 == Undefined
  {
    var key := "@" + ns + "/" + pantry;
    var s := State("/cwd", map[key := Loaded(p, false)], [key], {}, [], map[], 0);
    var bare := IngredientPath(None, pantry, name);
    FormatParse(bare);
    assert key[0] == '@' && pantry[0] != '@';
    MissDefers(s, pantry + "/" + name, prev);
  }
}
