# Production remote plugin of vite-plugin-federation, in Dafny

This project models `packages/lib/src/prod/remote-production.ts`, the
production-build plugin of vite-plugin-federation that makes a host consume
modules of remote builds. It covers four connected parts.

- **The remote table** (module `Remotes`). The configured remotes become an
  ordered table. Its match test is the regular expression `^<id>/.+?`: the
  source starts with `id + "/"`, followed by one character that is not a
  line terminator. The lookup takes the first match. The remote-relative
  module name is `"." + source[|id|..]`. The table is also written out as
  the `remotesMap` literal of the `__federation__` virtual module.
- **The import rewrite** of the host's `transform` hook (module
  `ImportRewrite`).
  - Every import site whose string source matches a remote is replaced by a
    call of the `__federation__` runtime: a dynamic import becomes
    `getRemote(...).then(wrapDefault)`, and a declaration becomes one
    `const __federation_var_<source> = await getRemote(...)` plus its
    bindings.
  - The runtime import is prepended once when anything matched.
  - MagicString is modelled as an ordered list of disjoint range edits.
- **The chunk registry** (modules `Chunks` and `ProdRemote`).
  - `transform` requests one chunk per shared entry in a shared build, and
    one per exposed entry in a remote build. It requests a chunk only while
    the entry has no `emitFile` reference, so repeated calls emit each chunk
    once.
  - The file names are `[assetsDir/][root[0]/]__federation_shared_<name>.js`
    and `[assetsDir/]__federation_expose_<name>.js`.
  - The generated code that refers to these chunks is modelled too: the
    `moduleMap` of `__federation_fn_import`, the `shareScope` entries of
    `__federation__`, and the `${__federation_expose_<name>}` placeholders
    of the remote entry.
  - The plugin is a class whose `sharedRefs` and `exposeRefs` fields hold the
    references. The bundler's `emitFile`/`getFileName` service is a class
    whose references are the positions of its requests.
- **The runtime of the `__federation__` module** (module `Runtime`).
  - `unwrapDefault`, `wrapDefault` and the shared `get` are modelled over a
    small JavaScript value type.
  - `ensure` is modelled as a per-remote record (`inited`, `lib`, the
    `init` calls made, the loads started), driven by the script and
    `import()` completion callbacks.

`JsonQuote` models `JSON.stringify` of a string together with a reader for
the literal it produces. `Text` holds the string operations the code uses:
`indexOf`, a first-occurrence `replace`, a character-class `replace`,
`join` and `path.basename`.

## Model

All source paths are in `packages/lib/src/prod/remote-production.ts`.

| member | source | states |
|---|---|---|
| Remotes.BuildRemotes | packages/lib/src/prod/remote-production.ts:14-22 | the table has one entry per configured remote, in configuration order, with that remote's id and configuration |
| Remotes.Matches | packages/lib/src/prod/remote-production.ts:19 | definition of `^id/.+?` on ids without metacharacters (see Left out): the source starts with the id and `/` and has at least one more character that is not a line terminator |
| Remotes.FindFrom | packages/lib/src/prod/remote-production.ts:221 | the index found is of a matching remote with no match before it; no index means no remote matches |
| Remotes.Find | packages/lib/src/prod/remote-production.ts:221 | `remotes.find` answers exactly when some remote matches, with the first remote that matches |
| Remotes.MatchHasSlash | packages/lib/src/prod/remote-production.ts:218-221 | a source that any remote matches contains '/', so the `indexOf('/')` filter drops no match |
| Remotes.MatchUnique | packages/lib/src/prod/remote-production.ts:19 | two slash-free ids that both match one source are equal: a remote's pattern never matches a source under a longer id |
| Remotes.ModName | packages/lib/src/prod/remote-production.ts:225 | the module name starts with "./" and a non-terminator, and `id` followed by the name without its dot is the source again |
| Remotes.ModNameExamples | packages/lib/src/prod/remote-production.ts:219-225 | `app2/Button` is `./Button` of `app2`, and `app2x/Button` does not match `app2` |
| Remotes.RemotesMapEntries | packages/lib/src/prod/remote-production.ts:29-34 | one `remotesMap` property per remote, in table order |
| Remotes.RemotesMapLiteral | packages/lib/src/prod/remote-production.ts:28-35 | definition of the `const remotesMap = {...};` text: the remotes' properties joined by `,` and a new line; `RemotesMapListsEvery` states what it contains |
| Remotes.RemotesMapListsEvery | packages/lib/src/prod/remote-production.ts:28-35 | the generated `remotesMap` literal contains the property of every configured remote |
| Remotes.RuntimeTable | packages/lib/src/prod/remote-production.ts:28-35 | when the literal is well formed (see Left out), the object it evaluates to has exactly the configured ids as keys |
| Remotes.RuntimeTableLastWins | packages/lib/src/prod/remote-production.ts:28-35 | an id maps to the configuration of its last occurrence, so the runtime keeps the last duplicate while the lookup takes the first |
| Text.IndexOfFrom | packages/lib/src/prod/remote-production.ts:218 | the index returned is the first occurrence at or after `from`; none means no occurrence there |
| Text.ReplaceFirst | packages/lib/src/prod/remote-production.ts:145-148 | text without the pattern is unchanged; otherwise exactly one pattern's length is exchanged for the replacement's |
| Text.ReplaceFirstAt | packages/lib/src/prod/remote-production.ts:198 | when the pattern first occurs right after `pre`, exactly that occurrence is replaced and the rest is kept |
| Text.RemoveChars | packages/lib/src/prod/remote-production.ts:241-244 | deleting characters never lengthens the text |
| Text.RemoveCharsSpec | packages/lib/src/prod/remote-production.ts:241-244 | no deleted character survives, and a character survives exactly when it was present and is not deleted |
| Text.RemoveCharsIdentity | packages/lib/src/prod/remote-production.ts:241-244 | text holding none of the deleted characters is left unchanged |
| Text.RemoveCharsAppend | packages/lib/src/prod/remote-production.ts:241-244 | the deletion distributes over concatenation |
| Text.TerminatedAppend | packages/lib/src/prod/remote-production.ts:264-268 | one more `item,` extends the gathered string by that item and a comma |
| Text.TerminatedDropLast | packages/lib/src/prod/remote-production.ts:280-283 | `slice(0, -1)` of the gathered `item,item,` string is the comma join of the items |
| Text.JoinHasPart | packages/lib/src/prod/remote-production.ts:144 | every part of a join occurs in the joined text |
| Text.Basename | packages/lib/src/prod/remote-production.ts:136-137 | the basename has no '/' and is no longer than the path |
| Text.BasenameSuffix | packages/lib/src/prod/remote-production.ts:136-137 | the basename is a suffix of the path, preceded by '/' when shorter than it |
| Text.BasenameAfterSlash | packages/lib/src/prod/remote-production.ts:136-137 | the basename of a directory prefix ending in '/' followed by a slash-free leaf is the leaf |
| JsonQuote.HexDigit | packages/lib/src/prod/remote-production.ts:231-234 | the digit reads back as the value it was made from |
| JsonQuote.Escape | packages/lib/src/prod/remote-production.ts:231-234 | every character is written as non-empty text, and a character needing no escape is written as itself |
| JsonQuote.Quote | packages/lib/src/prod/remote-production.ts:231-234 | the literal is enclosed in double quotes |
| JsonQuote.UnescapeOne | packages/lib/src/prod/remote-production.ts:231-234 | reading an escaped character back gives that character before the reading of the rest |
| JsonQuote.UnescapeEscapeAll | packages/lib/src/prod/remote-production.ts:231-234 | reading the escaped text back gives the original text |
| JsonQuote.QuoteRoundTrip | packages/lib/src/prod/remote-production.ts:231-234 | the generated literal reads back as the original id or module name |
| JsonQuote.QuotePlain | packages/lib/src/prod/remote-production.ts:248-250 | a string with no quote, backslash or control character is quoted verbatim between double quotes |
| JsonQuote.EscapeAllPlain | packages/lib/src/prod/remote-production.ts:248-250 | such a string needs no escape at all |
| ImportRewrite.SpliceIdentity | packages/lib/src/prod/remote-production.ts:301-304 | edits that rewrite each range to its own text, with nothing appended, leave the module text unchanged |
| ImportRewrite.SpliceKeepsEdits | packages/lib/src/prod/remote-production.ts:245-285 | every edit's replacement, followed by the text appended at its end, appears whole in the spliced text |
| ImportRewrite.TouchingEditsSplice | packages/lib/src/prod/remote-production.ts:245-285 | for two edits where the second starts at the first's end, MagicString's splice drops the first one's appended text, and the intended splice keeps it |
| ImportRewrite.TouchingSpliceLosesAppended | packages/lib/src/prod/remote-production.ts:245-299 | whatever is prepended, the as-written output of two touching edits is the intended output with the first one's appended text missing at the end of its replacement |
| ImportRewrite.MagicSpliceFrom | packages/lib/src/prod/remote-production.ts:228-302 | definition of MagicString's `toString` after the `overwrite` and `appendRight` calls: each replacement in order, its appended text dropped when the next replacement starts where it ends |
| ImportRewrite.MagicSpliceAgrees | packages/lib/src/prod/remote-production.ts:228-302 | when no edit ends where the next one starts, MagicString's splice equals the intended splice |
| ImportRewrite.VarName | packages/lib/src/prod/remote-production.ts:241-244 | the variable starts with `__federation_var_`, holds no `@ / \ . -` after it, and keeps every other character of the source |
| ImportRewrite.DynamicImportText | packages/lib/src/prod/remote-production.ts:228-236 | definition of a dynamic import's replacement: `__federation_method_getRemote` with the JSON-quoted id and module name, then `wrapDefault` with `true` exactly for a remote built by vite |
| ImportRewrite.DeclarationText | packages/lib/src/prod/remote-production.ts:245-251 | definition of a declaration's replacement: `const <var> = await __federation_method_getRemote(...);` |
| ImportRewrite.BindingsOfGathered | packages/lib/src/prod/remote-production.ts:252-285 | appending per-specifier text and then the gathered `item,` list without its last comma gives the bindings: per-specifier texts, then one destructuring when any named specifier exists |
| ImportRewrite.AppendBindings | packages/lib/src/prod/remote-production.ts:252-285 | the loop over the specifiers appends exactly the bindings of the declaration |
| ImportRewrite.BindingsBindEvery | packages/lib/src/prod/remote-production.ts:252-285 | every specifier of a declaration is bound by the appended text: a default or namespace specifier by its own `let`, a named one by its entry in the destructuring |
| ImportRewrite.MatchedRemote | packages/lib/src/prod/remote-production.ts:215-223 | a site is matched exactly when it has a string source containing '/' and some remote matches it; the remote chosen is the first that matches |
| ImportRewrite.SiteEdit | packages/lib/src/prod/remote-production.ts:226-290 | a site is edited exactly when it is matched and is a dynamic import or a declaration with specifiers, and the edit covers exactly the site's range |
| ImportRewrite.EditsWithin | packages/lib/src/prod/remote-production.ts:213-293 | the edits of sites inside a range stay inside that range |
| ImportRewrite.EditsOfFit | packages/lib/src/prod/remote-production.ts:213-293 | the walk's edits are ordered, disjoint and inside the module text, as MagicString requires |
| ImportRewrite.EditsOfNone | packages/lib/src/prod/remote-production.ts:213-293 | sites none of which is edited yield no edit |
| ImportRewrite.EditsOfHas | packages/lib/src/prod/remote-production.ts:213-293 | the edit of every edited site is among the walk's edits |
| ImportRewrite.EditsOf | packages/lib/src/prod/remote-production.ts:213-293 | definition of the walk's edits: the edits of the sites, in the order the walk visits them |
| ImportRewrite.EditsOfFromSites | packages/lib/src/prod/remote-production.ts:213-293 | every edit of the walk is the edit of one of the module's sites |
| ImportRewrite.NestedEdits | packages/lib/src/prod/remote-production.ts:213-223 | a dynamic import whose argument is not a literal and holds a matched site is skipped, and only the inner site is edited |
| ImportRewrite.NestedImportRewritten | packages/lib/src/prod/remote-production.ts:213-235 | for `import((await import('app2/cfg')).default)`, the output is the module with only the inner import replaced, and the runtime import in front |
| ImportRewrite.VisitSite | packages/lib/src/prod/remote-production.ts:214-292 | at a site whose source value is a string or nullish, the walk records exactly that site's edit and raises `requiresRuntime` exactly when the site matched |
| ImportRewrite.Walk | packages/lib/src/prod/remote-production.ts:211-293 | the walk throws exactly when some site's source value is a literal other than a string or `null` (it has no `indexOf`); otherwise it collects the edits of the matched sites in document order, and `requiresRuntime` is raised exactly when some site matched |
| ImportRewrite.TransformModule | packages/lib/src/prod/remote-production.ts:201-304 | a parse failure gives `null`; a site whose source value has no `indexOf` makes the hook throw; otherwise the result is the spliced module, with the runtime import in front when anything matched |
| ImportRewrite.Rewritten | packages/lib/src/prod/remote-production.ts:294-304 | definition of the intended output: the runtime import in front when anything matched, then the module with every edit applied and every appended binding kept |
| ImportRewrite.RewrittenAsWritten | packages/lib/src/prod/remote-production.ts:294-304 | definition of the output as the hook computes it: the same, with MagicString's splice |
| ImportRewrite.RewrittenAsWrittenAgrees | packages/lib/src/prod/remote-production.ts:228-304 | the output as written equals the intended output whenever no two rewritten sites touch |
| ImportRewrite.RewrittenKeepsEdits | packages/lib/src/prod/remote-production.ts:245-302 | in the intended output, every rewritten site appears whole: its replacement followed by all its bindings |
| ImportRewrite.RewrittenBindsEvery | packages/lib/src/prod/remote-production.ts:245-302 | in the intended output, every specifier of every rewritten declaration is bound: its own `let`, or its entry in the destructuring |
| ImportRewrite.TouchingSitesLoseBindings | packages/lib/src/prod/remote-production.ts:228-302 | whenever the walk's edits are two touching ones, the output as written is the intended output without the first site's bindings |
| ImportRewrite.AdjacentDeclarationsLoseBinding | packages/lib/src/prod/remote-production.ts:245-285 | for `import a from 'app2/A';import b from 'app2/B'` and every input of that shape, the output as written lacks exactly the `let a = ...` binding |
| ImportRewrite.NoMatchUnchanged | packages/lib/src/prod/remote-production.ts:295-304 | a module with no matching import comes out byte for byte as it went in |
| ImportRewrite.SpecifierlessMatchesOnlyPrepend | packages/lib/src/prod/remote-production.ts:240-299 | when the only matches are declarations without specifiers, the output is the input with only the runtime import prepended |
| Chunks.ChunkEmitter.EmitFile | packages/lib/src/prod/remote-production.ts:115-124 | each request is recorded and gets a reference no earlier request got |
| Chunks.ChunkEmitter.GetFileName | packages/lib/src/prod/remote-production.ts:137 | definition of `this.getFileName`: the file name requested under that reference (see Left out) |
| Chunks.SharedFileName | packages/lib/src/prod/remote-production.ts:117-121 | definition of a shared chunk's file name: `[assetsDir/][root[0]/]__federation_shared_<name>.js` |
| Chunks.ExposeFileName | packages/lib/src/prod/remote-production.ts:165-170 | definition of an exposed chunk's file name: `[assetsDir/]__federation_expose_<name>.js` |
| Chunks.SharedFileBasename | packages/lib/src/prod/remote-production.ts:117-137 | the basename of a shared chunk's file is `__federation_shared_<name>.js`, whatever directories precede it |
| Chunks.ExposeFileBasename | packages/lib/src/prod/remote-production.ts:165-178 | the basename of an exposed chunk's file is its chunk name plus `.js` |
| Chunks.ModuleMapPathFindsChunk | packages/lib/src/prod/remote-production.ts:117-137 | the `moduleMap` import path is `./` plus the chunk's file name below the assets directory, so it names the emitted chunk |
| Chunks.ModuleMapEntry | packages/lib/src/prod/remote-production.ts:127-142 | definition of one `moduleMap` property: the name, a `get` that imports the chunk's path, `import`, and `requiredVersion` only when set |
| Chunks.ShareScopeEntry | packages/lib/src/prod/remote-production.ts:188-195 | definition of one `shareScope` entry: the name, then the version holding a `get` of the chunk's path and `loaded:1` |
| Chunks.ShareScopePathFindsChunkIffNoRoot | packages/lib/src/prod/remote-production.ts:186-198 | the `shareScope` path names the emitted chunk below the assets directory exactly when the entry has no `root` |
| Chunks.FillExposePlaceholders | packages/lib/src/prod/remote-production.ts:175-180 | the loop replaces, in entry order, the first placeholder of each exposed module by the relative path of its chunk |
| Chunks.FillAll | packages/lib/src/prod/remote-production.ts:175-180 | definition of the filled remote entry: the first placeholder of each exposed module replaced in entry order |
| Chunks.FillAllWithoutPlaceholders | packages/lib/src/prod/remote-production.ts:175-180 | a remote entry without placeholders comes out unchanged |
| Chunks.PlaceholderPointsAtChunk | packages/lib/src/prod/remote-production.ts:163-180 | a placeholder is replaced by `./__federation_expose_<name>.js`, the file emitted for that module |
| ProdRemote.Plugin.constructor | packages/lib/src/prod/remote-production.ts:111-113 | a configured plugin holds no reference and has requested nothing |
| ProdRemote.Plugin.SharedPendingOfUnset | packages/lib/src/prod/remote-production.ts:113-125 | with no reference set, every shared entry's chunk is requested, in entry order |
| ProdRemote.Plugin.ExposePendingOfUnset | packages/lib/src/prod/remote-production.ts:161-173 | with no reference set, every exposed module's chunk is requested, in entry order |
| ProdRemote.Plugin.SharedPendingOfSet | packages/lib/src/prod/remote-production.ts:113-125 | with every reference set, no shared chunk is requested |
| ProdRemote.Plugin.ExposePendingOfSet | packages/lib/src/prod/remote-production.ts:161-173 | with every reference set, no exposed chunk is requested |
| ProdRemote.Plugin.RequestSharedChunk | packages/lib/src/prod/remote-production.ts:114-124 | an unset entry gets a fresh reference to a request for its own chunk, and the invariant holds |
| ProdRemote.Plugin.RequestExposeChunk | packages/lib/src/prod/remote-production.ts:162-172 | the same for an exposed entry |
| ProdRemote.Plugin.EmitSharedChunks | packages/lib/src/prod/remote-production.ts:113-125 | exactly the chunks of shared entries without a reference are requested, in order; every entry then has a reference; set references are kept |
| ProdRemote.Plugin.EmitExposeChunks | packages/lib/src/prod/remote-production.ts:161-173 | the same rule for the exposed entries |
| ProdRemote.Plugin.SharedFileNames | packages/lib/src/prod/remote-production.ts:137 | each name is what `getFileName` answers for that shared entry's reference |
| ProdRemote.Plugin.ExposeFileNames | packages/lib/src/prod/remote-production.ts:178 | each name is what `getFileName` answers for that exposed entry's reference |
| ProdRemote.Plugin.ResolvedWhenSet | packages/lib/src/prod/remote-production.ts:137-178 | in a valid state, once every reference is set, `getFileName` answers for all of them |
| ProdRemote.Plugin.EmitChunks | packages/lib/src/prod/remote-production.ts:112-173 | one call runs the shared loop in a shared build and the exposed loop when it gets past the shared virtual modules in a remote build |
| ProdRemote.Plugin.Transform | packages/lib/src/prod/remote-production.ts:111-305 | emission as above, and then the answer: the filled `moduleMap`, `satisfy.js`, the filled remote entry, the `shareScope` (a throw when a shared chunk was never emitted), the rewritten module in its intended form (a throw when the walk throws; see Left out), or nothing |
| ProdRemote.Plugin.NothingPendingOnceSet | packages/lib/src/prod/remote-production.ts:113-173 | once the loops a call reaches have set every reference, that call requests nothing |
| ProdRemote.Plugin.ModuleMapImportsEmittedChunk | packages/lib/src/prod/remote-production.ts:113-148 | a set reference resolves to the file requested for its entry, and the entry's `moduleMap` property imports that file by its path below the assets directory |
| ProdRemote.Plugin.ModuleMapListsEvery | packages/lib/src/prod/remote-production.ts:128-148 | the `moduleMap` object has a property for every shared entry |
| ProdRemote.Plugin.ShareScopeListsEvery | packages/lib/src/prod/remote-production.ts:186-198 | the `shareScope` code has an entry for every shared entry |
| ProdRemote.TransformTwice | packages/lib/src/prod/remote-production.ts:111-173 | emit-once: a second call that reaches no new loop requests nothing, so two calls emit what the first did |
| Runtime.UnwrapWrapRoundTrip | packages/lib/src/prod/remote-production.ts:90-102 | unwrapping a wrapped module without a truthy default gives the module back |
| Runtime.WrapChangesIff | packages/lib/src/prod/remote-production.ts:94-102 | wrapping changes the module exactly when wrapping is asked for and the module has no truthy default |
| Runtime.WrapTwiceIff | packages/lib/src/prod/remote-production.ts:94-102 | wrapping is idempotent exactly for modules that are truthy or have a truthy default |
| Runtime.UnwrapDefault | packages/lib/src/prod/remote-production.ts:90-92 | a value that is not an object comes back unchanged, and a different result is the default export of an `__esModule`-flagged module |
| Runtime.WrapDefault | packages/lib/src/prod/remote-production.ts:94-102 | nothing changes unless wrapping is asked for, and a changed result is a truthy envelope whose default is the module and whose `__esModule` flag is set |
| Runtime.SharedGetUndoesWrap | packages/lib/src/prod/remote-production.ts:45-102 | on a module without a truthy default, the shared `get` of the wrapped module gives the module back exactly when the module is not nullish |
| Runtime.SharedGetAgreesOnFlagged | packages/lib/src/prod/remote-production.ts:45-92 | on an `__esModule`-flagged module, the shared `get` and `unwrapDefault` agree exactly when the default export is not nullish |
| Runtime.SharedGetVersusUnwrap | packages/lib/src/prod/remote-production.ts:45-92 | on a module with a default but no `__esModule` flag, the shared `get` takes the default while `unwrapDefault` keeps the module |
| Runtime.RemoteRecord.constructor | packages/lib/src/prod/remote-production.ts:28-35 | a fresh remote record is not initialised, holds no container and has loaded nothing |
| Runtime.RemoteRecord.Ensure | packages/lib/src/prod/remote-production.ts:55-88 | an initialised remote is served from the cache with no load; otherwise a script or `import()` load is started according to the format, or nothing for an unknown format |
| Runtime.RemoteRecord.OnScriptLoad | packages/lib/src/prod/remote-production.ts:60-70 | the first completion stores the global and initialises it once; a late one keeps the cached container; a missing global throws |
| Runtime.RemoteRecord.OnImportLoad | packages/lib/src/prod/remote-production.ts:73-83 | the first completion stores the module and calls `init` on it twice; a late one keeps the cached container |
| Runtime.Federation.constructor | packages/lib/src/prod/remote-production.ts:28-56 | when the literal is well formed (see Left out), the runtime holds one fresh, uninitialised record of its own per id of the generated literal, configured by the id's last entry |
| Runtime.Federation.Ensure | packages/lib/src/prod/remote-production.ts:55-88 | an id without a record throws, except one naming an inherited `Object.prototype` property, for which the call resolves to `undefined`; only the id's own record changes; an initialised record is served from its cache and left unchanged; an uninitialised one starts a script load for `var`, an `import()` for `esm` or `systemjs`, and nothing otherwise, counting the load; `inited`, `lib` and the `init` calls never change |

## Left out

- Parsing and the syntax-tree walk (acorn and `estree-walker`) are external. The model takes the module's import sites, in the order the walk enters them (an outer node before those inside it), as input. Sites whose source is a literal are disjoint and in document order; a site whose source is not a literal may hold others. A parse failure is the input `None`; the error log that goes with it is left out.
- MagicString internals are left out. Its output is modelled as ordered, disjoint range replacements, each carrying the text appended at the end of its range, plus the prepended runtime import. Two outputs are modelled: `Rewritten`, where every replacement keeps its appended text, and `RewrittenAsWritten`, where an `overwrite` that starts where the previous replacement ends erases the text appended there, as MagicString does (see Findings).
- ImportRewrite.TransformModule: its result is the intended output `Rewritten`, not MagicString's. The two differ only when two rewritten sites touch; the difference is under Findings.
- ProdRemote.Plugin.Transform: for an ordinary module it answers what ImportRewrite.TransformModule gives, the intended `Rewritten`. The hook as written returns `RewrittenAsWritten`, which lacks a declaration's bindings when the next rewritten site starts where it ends (see Findings).
- Remotes.RuntimeTable: the `remotesMap` literal is assembled from ids and configuration values without escaping. An id or value holding `'`, `\` or a line terminator breaks the literal or changes its keys, and an id `__proto__` sets the prototype instead of adding a key. The model describes the object only for literals free of these.
- Runtime.Federation.constructor: built from `Remotes.RuntimeTable`, so it has the same limit for ids and values that break the unescaped literal.
- Remotes.Matches: each remote's pattern is built from its id without escaping. The model gives that pattern's meaning only for ids without regular-expression metacharacters.
- Chunks.ChunkEmitter.GetFileName: answers with the file name that was requested. The bundler keeps an explicit `fileName`, so this does not cover a bundler that renames chunks. An unknown reference gives `None`, which stands for the bundler's throw.
- Reading `satisfy.js` (`this.resolve` and `readFileSync`) is file I/O. Its text is the `satisfySource` parameter of Transform.
- `parseRemoteOptions`, `removeNonLetter` and `getModuleMarker` come from utilities that are not part of this model. The remotes arrive as a list. `removeNonLetter` is a function the plugin is built with. The two markers are fixed strings the plugin is built with.
- The shared and exposed option objects are modelled as values, and their `emitFile` fields as the plugin's `sharedRefs` and `exposeRefs` sequences. Aliasing between option objects shared with other plugins is not modelled.
- The shared options' `import` and `version` are assumed set, as a boolean and a string, so the generated text never shows `undefined` for them. An unset or empty `requiredVersion` is `""`. The `typeof obj === 'object'` test of the `shareScope` loop is always true in the model.
- Text.ReplaceFirst: models `String.prototype.replace` with a string pattern. `$` sequences in the replacement text are not interpreted.
- JsonQuote.Quote: works on Unicode scalar values. Lone UTF-16 surrogates, which `JSON.stringify` escapes, cannot occur in the model.
- The DOM and the network are left out: the script-tag injection in `loadJS`, `window[remoteId]` and dynamic `import(url)`. A load that `ensure` starts is counted in `loads`. Its completion is a call of `OnScriptLoad` or `OnImportLoad`, and the global the script defined is a parameter.
- Promises and concurrency are left out. Two `ensure` calls before a load completes each start a load, as the code does. No interleaving is modelled.
- `__federation_method_getRemote` is left out. It chains `ensure` with the container's own `get`, which is code of the remote, and promises are not modelled.
- The end-to-end browser test of the react-in-vue example has no logic to model.
- The namespace import `import * as a` is rewritten to `let {a} = V`, a destructuring with no leading newline. The model follows this code rather than a binding of the whole module.

## Findings

| source | as written | input that shows it | evidently intended | confidence | as-written member | corrected member |
|---|---|---|---|---|---|---|
| packages/lib/src/prod/remote-production.ts:245-285 | the bindings of a declaration are appended with `appendRight(node.end, ...)`; when the next rewritten site starts exactly at that offset, its `overwrite` edits the chunk that holds them and discards them | `import a from 'app2/A';import b from 'app2/B'` with remote `app2` configured: the output has no `let a = ...`, so `a` is unbound | every rewritten declaration keeps all its bindings | not executed | ImportRewrite.AdjacentDeclarationsLoseBinding | ImportRewrite.RewrittenKeepsEdits |
