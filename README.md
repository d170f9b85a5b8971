# roux-sass-importer, modelled in Dafny

roux-sass-importer is a node-sass custom importer for the Roux component
ecosystem. An `@import` of the form `@<namespace>/<pantry>/<ingredient>` or
`<pantry>/<ingredient>` is rewritten to the absolute path of the
ingredient's Sass entry point. The importer looks the pantry up in
`config.pantries`. If the pantry is not there, it asks `roux.resolve` for it
and answers later through node-sass's `done` callback. Each render keeps an
import-once cache on node-sass's `this`. Because of it, an entry point is
handed out as `{file}` only once, and every later import of it gets
`{contents: ''}`. A relative import that falls under a loaded pantry's root
is also answered from that cache, but it is never added to it.

The project models `index.js`:

- `wrappers.dfy`: `Option` and `Result`.
- `paths.dfy` (module `Paths`): `path.resolve` with its normalisation of
  "." and ".." segments, `pathParse(p).dir`, and `indexOf` with the
  `indexOf(...) === 0` prefix test.
- `roux.dfy` (module `Roux`): the ingredient-path shape that
  `roux.parseIngredientPath` accepts, written as a parser. Lemmas show that it
  accepts exactly the formatted valid paths and that a pantry key names a
  single pantry. The module also holds the pantry descriptor (name, root,
  ingredient table).
- `resolution.dfy` (module `Resolution`): the importer as functions over an
  explicit `State`. It covers `importOnce`, `getImportPath` and the dispatch
  of `Importer` (`ImportStep`). It also covers the settling of a pantry
  promise (`CompleteStep`) and whole runs of such events (`Run`).
- `properties.dfy` (module `Properties`): what the source promises, proved
  about those functions.
- `importer.dfy` (module `Importer`): the same importer as objects that change
  in place. `PantryConfig` is `config.pantries` together with its key order.
  `Session` is one render's `this`: the import-once cache and the imports
  still waiting for a pantry. Each method is proved against the function of
  `Resolution` that specifies it.

Asynchronous completion is an explicit event. `ImportStep` returns
`Undefined` and records a waiting import under a ticket. `CompleteStep`
(`Session.Complete`) settles that ticket with the promise's outcome and
returns the value `done` receives.

Three behaviours of the code are worth stating:

- There is no request coalescing. An absent pantry slot is not filled while
  `roux.resolve` runs, so every miss starts its own lookup (`NoCoalescing`).
- The relative-url branch never records the path it checks. It only reads
  the cache.
- A failed lookup leaves the pantry map exactly as it was.

## Model

| member | source | states |
|---|---|---|
| Paths.IndexOf | index.js:142 | `indexOf` gives the first index at which the string occurs, or -1 when it occurs nowhere |
| Paths.IndexOfZero | index.js:142 | the test `indexOf(root) === 0` holds exactly when `root` is a prefix (`Paths.StartsWith`) of the resolved url |
| Paths.Absolute | index.js:139 | `path.resolve(p)` is absolute and normalised; a relative path of plain names is that entry of the working directory |
| Paths.AbsoluteOfNormal | index.js:139 | an absolute path already in normal form, such as a pantry root, comes back unchanged from `path.resolve` |
| Paths.Resolve | index.js:127 | `path.resolve(base, rel)` is absolute and normalised; an absolute `rel` wins; a relative `rel` of plain names is that entry of the absolute `base`; a relative `rel` without ".." stays under the absolute `base` |
| Paths.NormalIsFixed | index.js:127 | normalising a normalised path changes nothing |
| Paths.DotSlashIsTransparent | index.js:127 | `path.resolve(base, './' + rel)` equals `path.resolve(base, rel)` for a relative `rel` |
| Paths.Dir | index.js:123 | `pathParse(prev).dir` is a prefix of `prev` |
| Paths.DirOfFile | index.js:123 | the directory of `d/f`, with `f` slash-free, is `d`, and "/" when `d` is empty: everything before the last '/' |
| Paths.ParentClimbs | index.js:127 | a relative url with a leading "../" resolves like the rest of the url from the directory of the absolute `base`: one directory up, and the root stays the root |
| Roux.ParseIngredientPath | index.js:152-158 | a parsed url is a valid ingredient path that formats back to the url, and it never starts with '.' or '/' (file paths pass through) |
| Roux.FormatParse | index.js:46-47 | every valid `@ns/pantry/ingredient` or `pantry/ingredient` parses back to itself |
| Roux.ParseExactly | index.js:152 | the parser accepts a path exactly when it is valid and formats to the url (both directions) |
| Roux.PantryKeyInjective | index.js:160 | equal pantry keys mean equal namespace and pantry name, so `@ns/pantry` and `pantry` are distinct entries |
| Resolution.Seeded | index.js:77-85 | a pantry configured by location becomes the pending promise for that location; a descriptor is kept as it is, with its `isPantry` flag |
| Resolution.EntryPoint | index.js:20-37 | a missing ingredient gives "No such ingredient", one without a Sass entry gives "has no Sass entry point" (each if and only if), both naming pantry and ingredient; otherwise the absolute entry point, which is the file inside the ingredient's directory when the file name is a path of plain names, and lies under that directory when it is relative without ".." |
| Resolution.SetSlot | index.js:173 | `config.pantries[key] = slot`: the map gets the slot, the key order only grows, a new key goes last, and a key order in step with the map and free of duplicates stays so |
| Resolution.ImportOnce | index.js:10-18 | the file is recorded in the cache; it is handed out exactly when it was not recorded before, otherwise the reply is `{contents: ''}` |
| Resolution.GetImportPath | index.js:20-38 | errs exactly when the entry point is missing, with the error naming pantry and ingredient and the cache unchanged; never the sentinel or `undefined`; a `{file}` reply is a file not recorded before, and recording it is the only change |
| Resolution.FirstMatch | index.js:131-149 | a key found is in the key order and names an `isPantry` instance whose resolved root is a prefix of the target (first-ness and completeness in `Properties.FirstMatchIsFirst`) |
| Resolution.ImportStep | index.js:110-196 | a call never writes the pantry map or its key order; it defers (`undefined`) exactly when it issues a ticket, and otherwise leaves waiting imports and discoveries alone; the cache changes only by recording a file it hands out, which was not recorded before (further cases in the `Properties` lemmas below) |
| Resolution.CompleteStep | index.js:172-186 | settling removes the ticket and answers `done` exactly when the ticket was waiting; `done` never receives the sentinel or `undefined`; a rejection leaves the pantry map alone; the cache changes only by recording a file handed to `done` |
| Properties.ImportOnceRepeat | index.js:10-18 | a second `importOnce` of the same file gives `{contents: ''}` and leaves the cache as the first call left it; a recorded file leaves the cache as it was |
| Properties.GetImportPathOnce | index.js:35-37 | on success the entry point is handed out the first time and `{contents: ''}` every later time |
| Properties.FirstMatchIsFirst | index.js:131-149 | the relative-url loop finds the first key in key order whose pantry (an `isPantry` instance) has its root as a string prefix, and finds none only when no key matches |
| Properties.RelativeSeesEntryPoint | index.js:122-149 | inside an ingredient's directory, `./<entry file>` resolves to the path that the ingredient's import hands out, so it gets `{contents: ''}` once that file was handed out and the sentinel before |
| Properties.RelativeUnderPantry | index.js:122-149 | a relative url under a loaded pantry root gives `{contents: ''}` exactly when that path is cached and the sentinel otherwise, with no state change |
| Properties.FilePathsChangeNothing | index.js:122-158 | urls starting with '.' or '/' never change state or defer; absolute paths and relative paths under no pantry pass through |
| Properties.NotAnIngredientPassesThrough | index.js:152-158 | a url that does not parse gives the sentinel and changes nothing |
| Properties.LoadedIsSynchronous | index.js:191-195 | a loaded pantry gives `getImportPath`'s result at once, never `undefined`, and only the cache may change |
| Properties.MissDefers | index.js:167-188 | an absent or pending pantry gives `undefined` and one waiting import; pantry map and cache are unchanged, and a lookup starts exactly when the slot is absent |
| Properties.NoCoalescing | index.js:171 | two imports of the same absent pantry start two lookups and the slot stays absent |
| Properties.SettleRejected | index.js:182-186 | a rejected promise gives `done` "Failed to resolve <url>", and the pantry map and the cache are unchanged |
| Properties.SettleResolved | index.js:172-181 | a resolved promise stores the pantry under the import's key and gives `done` the `getImportPath` result |
| Properties.SettleOnce | index.js:172-186 | `done` is called at most once per waiting import |
| Properties.SettledPantryIsSynchronous | test/index.js:326-346 | after a pantry resolved, the same import is answered synchronously, and an entry point already handed to `done` comes back as `{contents: ''}` |
| Properties.SecondImportIsEmpty | index.js:10-18 | an import answered synchronously (index.js:191-195) with `{file}` is answered with `{contents: ''}` next time, from any importing file, with no state change |
| Properties.StepsPreserveWellFormed | index.js:160-189 | dispatch and settling keep the key order duplicate-free and in step with the map, and keep every waiting import consistent with its url |
| Properties.ImportStepWellFormed | index.js:160-196 | a call keeps the state well formed |
| Properties.CompleteStepWellFormed | index.js:172-186 | settling keeps the state well formed |
| Properties.StepEmitsFresh | index.js:10-18 | one event hands a file out at most once, only if it was not recorded, and records it exactly then |
| Properties.EachFileHandedOutOnce | index.js:87-93 | over any sequence of imports and settlements, a recorded file is never handed out again, any other at most once, and the final cache is the initial cache plus the files handed out |
| Properties.CachedPantryScenario | test/index.js:207-241 | a descriptor seeded under a normalised root answers `<pantry>/<ingredient>` with `<root>/<ingredient>/<entry>`, then with `{contents: ''}` |
| Properties.NamespacedPantryScenario | test/index.js:357-391 | `@<namespace>/<pantry>/<ingredient>` is answered synchronously from the `@<namespace>/<pantry>` entry |
| Properties.BareKeyIsSeparate | index.js:160 | with only `@<namespace>/<pantry>` loaded, `<pantry>/<ingredient>` finds no entry and waits |
| Importer.PantryConfig.constructor | index.js:75-85 | the configured pantries in their key order; locations become pending promises |
| Importer.PantryConfig.Put | index.js:173 | `config.pantries[key] = slot`: the map is updated, a new key is appended to the key order, and the key order stays duplicate-free |
| Importer.PantryConfig.FindPantryRoot | index.js:131-149 | the loop with its early return computes the first matching key |
| Importer.Session.constructor | index.js:112 | a fresh `this` starts with an empty import-once cache |
| Importer.Session.ImportOnce | index.js:10-18 | check-then-insert on the cache, as `Resolution.ImportOnce` |
| Importer.Session.GetImportPath | index.js:20-38 | the reply and the new cache, as `Resolution.GetImportPath` |
| Importer.Session.Import | index.js:110-196 | the reply and the whole new state, as `Resolution.ImportStep` |
| Importer.Session.Complete | index.js:167-189 | the value given to `done` and the whole new state, as `Resolution.CompleteStep`, keeping the key order valid |

## Left out

- `roux.parseIngredientPath` is not part of this model. `Roux.ParseIngredientPath` stands in for it with the documented shape. Segments are non-empty and slash-free. A pantry name may not start with '.'. A bare pantry name may not start with '@'.
- `roux.resolve` and `roux.initialize` are not part of this model. Their promises settle through the `Outcome` given to `Session.Complete`. The model assumes a resolved value is a `Pantry` instance.
- Waiting imports attached to one configured promise are settled independently. The model does not force them to receive the same outcome.
- `roux.normalizeConfig` is not part of this model. Configuration validation (test/index.js:44-102) happens there.
- `Pantry.isPantry` is not part of this model. It is the `isInstance` flag of a loaded slot.
- Paths.Resolve: POSIX paths only. The working directory is taken to be absolute, as `process.cwd()` is. Windows drive letters and back-slashes are not modelled.
- Paths.Dir: a `prev` that ends in '/' keeps its last segment, where `path-parse` would drop it. node-sass passes the path of a file, so this case does not arise.
- Promises and concurrency are replaced by explicit settle events, each identified by a ticket.
- An exception thrown inside `done` or `getImportPath` within `.then` would reach `.catch` and call `done` again. This is not modelled.
- Falsy pantry-map values other than absence are not modelled. Integer-like keys, which `Object.keys` lists first, are not modelled either.
- Pantry names that `config.pantries` inherits from `Object.prototype` are not modelled. For `constructor/x`, `config.pantries["constructor"]` is a function without `then`, so index.js:191 calls `getImportPath` and index.js:21 throws a TypeError. The model treats such a key as absent and defers.
- Resolution.EntryPoint: ingredient names that `pantry.ingredients` inherits from `Object.prototype` (`constructor`, `toString`, `hasOwnProperty`, `__proto__`) are not modelled. For a loaded pantry imported as `pantry/constructor`, index.js:21 finds the `Object` function, which is truthy, so index.js:27 reads `sass` of `undefined` and the importer throws a TypeError synchronously from index.js:191. The model answers `NoSuchIngredient` instead. `Properties.LoadedIsSynchronous` inherits this gap.
- Error text (`util.format`) and the `errors` property attached to "Failed to resolve" are reduced to error kinds that carry the names.
- The sentinel is the constant `Null`. The factory's sentinel argument, which the tests pass (test/index.js:158-185), is not modelled.
- The test harness's file-system scaffolding, the node-sass rendering test (test/index.js:503-666) and Gruntfile.js are I/O and tooling.
