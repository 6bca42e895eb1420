# Fractal publish and fetch pipeline, in Dafny

This project models the core of the "fractal" system. A fractal is a React component whose source opens with the `"use fractal"` directive. The system publishes fractals to a registry and loads them into a running page on demand. The model covers four parts.

- **The CLI** (`packages/fractal-cli/src/utils`):
  - finds the fractal files of a project and the package that owns each one;
  - turns each file into a bundler entry that registers its component;
  - builds every fractal into the output directory, with a manifest and a meta record;
  - analyses the dependencies a fractal declares and the fractals it uses;
  - records git facts about the repository;
  - uploads the bundles to the registry, stopping at the first failure.
- **The registry** (`packages/fractal-registry/src`):
  - compiles a posted source and pulls its styles out;
  - keeps the records in a cache backed by one JSON file per fractal;
  - answers the `/fractals` routes for metadata, code, the manifest and publishing.
- **The runtime** (`packages/fractal/src`):
  - keeps the table of shared modules that a fractal's `require` resolves against;
  - registers the shared modules at start-up;
  - detects the registry URL;
  - fetches and evaluates module text with `React` lent on the window;
  - runs the `useFractal` cache and its in-flight loads;
  - decides what the `Fractal` component renders;
  - preloads fractals.
  The runtime exists in two versions, `index.ts` and `index.tsx`. Where they differ, a `Version` parameter selects which one a member follows, and lemmas compare the two.
- **The build plugin** (`packages/fractal-plugin/src`):
  - detects and uploads fractals;
  - runs the webpack loader that wraps a fractal's default export;
  - installs the Next.js configuration hook.

Each core source file is one Dafny module. Modules are pure where the source computes values. Where the source changes state in place, the model is imperative, with classes and methods:
- the package cache of the package finder;
- the builder writing its output directory;
- the registry store's cache;
- the module registry;
- the runtime's loader state and window globals;
- the upload loops.

The source's regular expressions are written as matcher functions with the same leftmost, greedy or lazy behaviour. Oracles are passed in as parameters:
- esbuild;
- `eval` and `new Function`;
- `fetch`;
- the `git` commands;
- SHA-256;
- `Math.random`;
- the clock;
- `JSON.parse` and `JSON.stringify` of the records;
- the filesystem's listings.

Four shared helper modules sit under the models:
- `JsStrings`: the JavaScript `\s` class, trimming, searching, splitting and ASCII case mapping.
- `Paths`: Node's `path` functions over absolute paths.
- `InsertionSets`: a JavaScript `Set` in insertion order.
- `RegexScan` and `RegexReplace`: the `exec` loop and `replace` with the global flag.

Some behaviour of the code is easy to misread, and the model follows the code:
- The CLI transformer removes the first line that starts with the directive (`"use fractal";` or `'use fractal';`), whichever line that is: its pattern carries the multiline flag but not the global one (packages/fractal-cli/src/utils/fractal-transformer.ts:10). The comment above it at packages/fractal-cli/src/utils/fractal-transformer.ts:9 speaks of "the" directive.
- A manifest's dependencies are the package's whole declared set (packages/fractal-cli/src/utils/manifest-generator.ts:56). `GetUsedDependencies` exists, but the manifest does not use it.
- The builder's batch result counts only rejected builds as failed. Per-fractal errors are caught and logged, so `failed` is always 0.

## Model

| member | source | states |
|---|---|---|
| CliDetector.Info | packages/fractal-cli/src/utils/fractal-detector.ts:42-45 | a selected file's record pairs its path with its basename |
| CliDetector.FindFractals | packages/fractal-cli/src/utils/fractal-detector.ts:13-50 | the `.jsx` matches' fractals come first, then the `.tsx` matches', each kept exactly when `isFractal` accepts it |
| CliDetector.SelectedAppend | packages/fractal-cli/src/utils/fractal-detector.ts:21-36 | filtering the concatenated match lists is filtering each list, `.jsx` records before `.tsx` records |
| CliDetector.SelectedMembers | packages/fractal-cli/src/utils/fractal-detector.ts:40-47 | a record is returned iff its file is a candidate, the file is a fractal, and the record names the file's basename |
| CliDetector.SelectedShape | packages/fractal-cli/src/utils/fractal-detector.ts:40-47 | at most one record per candidate, each pairing a path with its basename |
| CliDetector.IsFractalIff | packages/fractal-cli/src/utils/fractal-detector.ts:52-60 | a file is a fractal iff its content is a run of whitespace followed by the double-quoted `"use fractal"`; a failed read is not |
| CliDetector.FirstNonBlankDecides | packages/fractal-cli/src/utils/fractal-detector.ts:56 | a first non-blank character other than `"` rejects the file, so a directive after other code is not recognised |
| CliDetector.SingleQuotedRejected | packages/fractal-cli/src/utils/fractal-detector.ts:11 | the single-quoted `'use fractal';` is not a CLI fractal |
| PackageFinder.Probe | packages/fractal-cli/src/utils/package-finder.ts:25-44 | one step of the walk succeeds iff `package.json` in that directory reads, parses and has a truthy name and version; the info points at that file |
| PackageFinder.FirstFoundIsNearest | packages/fractal-cli/src/utils/package-finder.ts:24-49 | the walk's result is the nearest directory whose probe succeeds, every nearer one failing; null iff every probe fails |
| PackageFinder.RootHasNoPackage | packages/fractal-cli/src/utils/package-finder.ts:22-24 | the root directory is never probed: a file directly under it has no package |
| PackageFinder.CacheAgreesUpdate | packages/fractal-cli/src/utils/package-finder.ts:39-52 | caching a fresh walk's answer, null included, keeps every cached answer equal to an uncached walk |
| PackageFinder.WalkUp | packages/fractal-cli/src/utils/package-finder.ts:21-53 | the loop returns the uncached answer, having read the descriptors of the directory and its ancestors in order, stopping at the first success and never reading the root |
| PackageFinder.Finder.FindClosestPackage | packages/fractal-cli/src/utils/package-finder.ts:13-54 | a cache hit returns the cached value and reads nothing; a miss walks up, returns the nearest package and caches it, null included; a consistent cache stays consistent |
| PackageFinder.Finder.ClearCache | packages/fractal-cli/src/utils/package-finder.ts:67-69 | the cache is emptied |
| PackageFinder.DropLeadingHyphen | packages/fractal-cli/src/utils/package-finder.ts:59 | at most one leading hyphen is removed |
| PackageFinder.KebabName | packages/fractal-cli/src/utils/package-finder.ts:58-59 | the kebab segment holds no upper-case letter |
| PackageFinder.ReplaceScopeChars | packages/fractal-cli/src/utils/package-finder.ts:62 | each `@` and `/` becomes `-`, every other character is kept |
| PackageFinder.TrimLeadingHyphens | packages/fractal-cli/src/utils/package-finder.ts:62 | a suffix of the text that does not start with `-` |
| PackageFinder.TrimTrailingHyphens | packages/fractal-cli/src/utils/package-finder.ts:62 | a prefix of the text that does not end with `-` |
| PackageFinder.CleanPackageName | packages/fractal-cli/src/utils/package-finder.ts:62 | the cleaned name has no `@` or `/`, does not start or end with `-`, and is no longer than the name |
| PackageFinder.IdentityRoundTrip | packages/fractal-cli/src/utils/package-finder.ts:56-65 | without `:` in the inputs, the identity splits back into the cleaned name, the kebab name and the verbatim version |
| PackageFinder.VersionDistinguishes | packages/fractal-cli/src/utils/package-finder.ts:64 | two packages differing only in version get different identities |
| PackageFinder.UnscopedNameUnchanged | packages/fractal-cli/src/utils/package-finder.ts:62 | a name without `@`, `/` or end hyphens is used unchanged |
| PackageFinder.ScopedNameJoined | packages/fractal-cli/src/utils/package-finder.ts:62 | `@scope/pkg` becomes `scope-pkg` |
| PackageFinder.KebabOfLowerName | packages/fractal-cli/src/utils/package-finder.ts:59 | a base name without capitals or a leading hyphen is kept |
| PackageFinder.KebabOfCapitalised | packages/fractal-cli/src/utils/package-finder.ts:59 | a leading capital is lower-cased without a leading hyphen, and each later capital starts a hyphenated word |
| CliTransformer.FirstDirectiveLine | packages/fractal-cli/src/utils/fractal-transformer.ts:10 | the multiline-anchored directive search finds a line start holding a quoted `use fractal` and a semicolon, and no such line lies before it |
| CliTransformer.StripNothing | packages/fractal-cli/src/utils/fractal-transformer.ts:10 | content with no directive line is left unchanged |
| CliTransformer.StripFirst | packages/fractal-cli/src/utils/fractal-transformer.ts:10 | only the first directive line is removed, together with the whitespace run after it; everything before and after is kept |
| CliTransformer.DirectiveWithoutSemicolonKept | packages/fractal-cli/src/utils/fractal-transformer.ts:10 | a directive written without its semicolon is never matched |
| CliTransformer.LaterLineStripped | packages/fractal-cli/src/utils/fractal-transformer.ts:10 | with the multiline flag a directive on a later line is removed too, and the first line is kept |
| CliTransformer.KeywordEnd | packages/fractal-cli/src/utils/fractal-transformer.ts:20 | a matched `function`, `const` or `class` keyword ends after where it starts and within the text |
| CliTransformer.ExportAt | packages/fractal-cli/src/utils/fractal-transformer.ts:20 | a match of the export pattern captures a non-empty run of word characters |
| CliTransformer.Leftmost | packages/fractal-cli/src/utils/fractal-transformer.ts:20 | a non-global match returns the result at the leftmost position where the pattern matches, and nothing when it matches nowhere |
| CliTransformer.Capitalise | packages/fractal-cli/src/utils/fractal-transformer.ts:27 | the first character is upper-cased, the length and the remaining characters are kept |
| CliTransformer.ComponentName | packages/fractal-cli/src/utils/fractal-transformer.ts:17-27 | the name comes from the first export declaration when there is one, else from the capitalised base name of the file |
| CliTransformer.ComponentNameIsLeftmost | packages/fractal-cli/src/utils/fractal-transformer.ts:18-23 | the component name is the identifier of the earliest export declaration, whatever comes after it |
| CliTransformer.FallbackName | packages/fractal-cli/src/utils/fractal-transformer.ts:25-27 | without any export declaration the name is the base name without its extension, with no lower-case first letter |
| CliTransformer.Wrap | packages/fractal-cli/src/utils/fractal-transformer.ts:30-44 | the entry is exactly as long as the import header, the content, the registration call and the two re-exports together |
| CliTransformer.WrapRoundTrip | packages/fractal-cli/src/utils/fractal-transformer.ts:30-44 | the wrapped content is recovered verbatim from the entry, given its registration and re-exports |
| CliTransformer.Transform | packages/fractal-cli/src/utils/fractal-transformer.ts:5-16 | an entry is produced exactly when the file can be read |
| CliTransformer.TransformKeepsStrippedContent | packages/fractal-cli/src/utils/fractal-transformer.ts:5-16 | the entry is the content with its directive removed, inside the glue that registers the chosen component under the fractal name |
| CliTransformer.DuplicateExport | packages/fractal-cli/src/utils/fractal-transformer.ts:20-22 | whenever an export declaration names the component, that declaration's exports and the export statements read off the emitted glue text hold some name twice |
| CliTransformer.ReexportsNames | packages/fractal-cli/src/utils/fractal-transformer.ts:41-42 | the glue's text exports exactly the component's name and `default`, once each, when the name is a plain word |
| CliTransformer.FirstExportIsWord | packages/fractal-cli/src/utils/fractal-transformer.ts:18-23 | the name taken from an export declaration is a plain word, with no space, `;` or line break in it |
| CliTransformer.DefaultFunctionExportedTwice | packages/fractal-cli/src/utils/fractal-transformer.ts:41-42 | for `export default function Card`, the declaration and the export statements read off the emitted glue export "default" twice |
| CliTransformer.TransformFixed | packages/fractal-cli/src/utils/fractal-transformer.ts:5-16 | the corrected transform produces an entry exactly when the file can be read |
| CliTransformer.FixedExportsOnce | packages/fractal-cli/src/utils/fractal-transformer.ts:41-42 | with the corrected glue, the declaration's exports plus the export statements read off the emitted text are exactly the component's name once and `default` once |
| CliTransformer.FixedKeepsStrippedContent | packages/fractal-cli/src/utils/fractal-transformer.ts:30-34 | the corrected entry starts with the import followed verbatim by the content without its directive |
| FractalBuilder.ArtifactPathsDistinct | packages/fractal-cli/src/utils/fractal-builder.ts:71 | the bundle, source map, temp entry, manifest and meta record of one build are five different files |
| FractalBuilder.OutputSize | packages/fractal-cli/src/utils/fractal-builder.ts:136 | the output size is the metafile's byte count when esbuild reports one, and 0 otherwise |
| FractalBuilder.Builder.PrepareBuild | packages/fractal-cli/src/utils/fractal-builder.ts:106-113 | the temp entry is written exactly when the file could be read and the temp path is writable; it then holds the entry of the corrected transform and nothing else on disk changes |
| FractalBuilder.Builder.ExecuteBuild | packages/fractal-cli/src/utils/fractal-builder.ts:115-143 | on success the bundle and source map are written and the metadata carries the output size and the clock's time; whatever happens the temp entry is gone afterwards |
| FractalBuilder.Builder.GenerateArtifacts | packages/fractal-cli/src/utils/fractal-builder.ts:145-174 | the manifest and then the meta record, which copies the fractal's and the package's facts, the manifest path and the build metadata, are written; no other file changes |
| FractalBuilder.Builder.BuildFractal | packages/fractal-cli/src/utils/fractal-builder.ts:64-90 | a result comes back exactly when a package was found and every step can succeed (`BuildSucceeds`: the file is read, the temp entry, bundle, map, manifest and meta record can be written, the bundler accepts the entry); no package means no change on disk; a result names the fractal and its bundle, manifest and meta record are in the output directory; no temp entry is left behind |
| FractalBuilder.Builder.BuildWithPackage | packages/fractal-cli/src/utils/fractal-builder.ts:69-85 | the steps after the package was found succeed exactly when `BuildSucceeds` holds, and then leave the artifacts of the build; no temp entry is left |
| FractalBuilder.Builder.BuildCandidate | packages/fractal-cli/src/utils/fractal-builder.ts:43-46 | one candidate's build succeeds exactly when its closest package is found and its steps can succeed (`CandidateBuilds`); its record is then named after the fractal within the package the walk finds, with the bundle and manifest paths in the output directory (`RecordFor`); the package lookup's cache stays consistent |
| FractalBuilder.Builder.Build | packages/fractal-cli/src/utils/fractal-builder.ts:30-62 | one outcome per candidate, in order, and outcome i is present exactly when candidate i can be built (`CandidateBuilds`), and is then candidate i's record with its name, file, bundle path and manifest path (`RecordFor`); the results are the non-null outcomes; with no candidate nothing on disk changes, otherwise the output directory is made; `failed` is 0 |
| FractalBuilder.VerdictAt | packages/fractal-cli/src/utils/fractal-builder.ts:43-52 | the per-candidate verdicts line up with the candidates, entry by entry |
| FractalBuilder.OutcomesTrackCandidates | packages/fractal-cli/src/utils/fractal-builder.ts:43-52 | outcomes that match the verdicts of the candidates are present exactly where the candidate can be built |
| FractalBuilder.OutcomesAreRecords | packages/fractal-cli/src/utils/fractal-builder.ts:43-52 | results collected one candidate at a time are, index by index, the records of their own candidates |
| FractalBuilder.Successes | packages/fractal-cli/src/utils/fractal-builder.ts:48-52 | exactly the present results are kept, never more than there are outcomes |
| FractalBuilder.SuccessesAppend | packages/fractal-cli/src/utils/fractal-builder.ts:48-52 | filtering distributes over concatenation, so one failing build does not drop or reorder the others |
| DependencyAnalyzer.AnalyzeDependencies | packages/fractal-cli/src/utils/dependency-analyzer.ts:11-29 | an unreadable or unparsable package.json gives three empty maps; otherwise each map is the declared one, or empty when that field is missing |
| DependencyAnalyzer.NonQuoteRun | packages/fractal-cli/src/utils/dependency-analyzer.ts:69 | the greedy `[^'"`]+` run has no quote inside it and stops at a quote or at the end |
| DependencyAnalyzer.PatternsAdvance | packages/fractal-cli/src/utils/dependency-analyzer.ts:72-87 | neither global pattern matches the empty string, so both `exec` loops make progress |
| DependencyAnalyzer.PackageName | packages/fractal-cli/src/utils/dependency-analyzer.ts:76-81 | a path yields no package name exactly when it starts with '.' |
| DependencyAnalyzer.ScopedPackageName | packages/fractal-cli/src/utils/dependency-analyzer.ts:77-78 | `@scope/pkg/sub` names `@scope/pkg` |
| DependencyAnalyzer.UnscopedPackageName | packages/fractal-cli/src/utils/dependency-analyzer.ts:79 | `pkg/sub` names `pkg` |
| DependencyAnalyzer.NamesNotRelative | packages/fractal-cli/src/utils/dependency-analyzer.ts:76-90 | no collected name starts with '.', so relative imports contribute nothing |
| DependencyAnalyzer.ImportedPackagesSpec | packages/fractal-cli/src/utils/dependency-analyzer.ts:65-99 | the returned names have no duplicates and are exactly the package names of all `import` and `require` matches |
| DependencyAnalyzer.ExtractImports | packages/fractal-cli/src/utils/dependency-analyzer.ts:65-99 | the two `exec` loops collect exactly the names of the import matches, then of the require matches, in first-seen order |
| DependencyAnalyzer.GetUsedDependencies | packages/fractal-cli/src/utils/dependency-analyzer.ts:31-63 | an unreadable file gives every declared dependency; otherwise each map keeps exactly the entries with a non-empty version whose name the file imports |
| DependencyAnalyzer.UsedIsSubmap | packages/fractal-cli/src/utils/dependency-analyzer.ts:46-56 | the filtered maps add no entry and change no version |
| FractalAnalyzer.DefaultImportAt | packages/fractal-cli/src/utils/fractal-analyzer.ts:51 | a default-import match captures a non-empty run of word characters |
| FractalAnalyzer.CloseBrace | packages/fractal-cli/src/utils/fractal-analyzer.ts:63 | the `[^}]+` capture runs up to the first closing brace, which is the first '}' at or after the start |
| FractalAnalyzer.NamedImportAt | packages/fractal-cli/src/utils/fractal-analyzer.ts:63 | a named-import match ends after where it starts and captures a non-empty list |
| FractalAnalyzer.RegisterCallAt | packages/fractal-cli/src/utils/fractal-analyzer.ts:35 | a `registerModule(...)` match captures a non-empty quoted name |
| FractalAnalyzer.PatternsAdvance | packages/fractal-cli/src/utils/fractal-analyzer.ts:37-65 | none of the three global patterns matches the empty string, so every `exec` loop makes progress |
| FractalAnalyzer.ComponentNames | packages/fractal-cli/src/utils/fractal-analyzer.ts:57 | exactly the names that start with an upper-case letter are kept |
| FractalAnalyzer.IndexOfFirst | packages/fractal-cli/src/utils/fractal-analyzer.ts:68 | no occurrence of the separator starts before the position `split` cuts at |
| FractalAnalyzer.AliasIgnored | packages/fractal-cli/src/utils/fractal-analyzer.ts:68 | for `A as B` the imported name `A` is recorded, not the alias |
| FractalAnalyzer.ExtractImportedComponents | packages/fractal-cli/src/utils/fractal-analyzer.ts:47-76 | the two `exec` loops add the capitalised default-import names and then the capitalised named-import names, each once, in first-seen order |
| FractalAnalyzer.AddListed | packages/fractal-cli/src/utils/fractal-analyzer.ts:66-72 | the names of one brace list are added in order, aliases dropped, each once |
| FractalAnalyzer.ImportedComponentsAreCapitalised | packages/fractal-cli/src/utils/fractal-analyzer.ts:57-69 | every candidate component begins with an upper-case letter |
| FractalAnalyzer.UsedAsJsxIff | packages/fractal-cli/src/utils/fractal-analyzer.ts:78-82 | the element test succeeds exactly when some position opens a tag with that name followed by a space, '>' or '/' |
| FractalAnalyzer.LongerTagIsNoUse | packages/fractal-cli/src/utils/fractal-analyzer.ts:80 | a longer tag that only starts with the name, such as `<CardHeader` for `Card`, is not a use |
| FractalAnalyzer.CandidatePaths | packages/fractal-cli/src/utils/fractal-analyzer.ts:85-95 | six places are tried for a component file |
| FractalAnalyzer.FirstExisting | packages/fractal-cli/src/utils/fractal-analyzer.ts:97-106 | a found path exists and is one of the candidates; nothing is found only when none exists |
| FractalAnalyzer.FirstExistingIsFirst | packages/fractal-cli/src/utils/fractal-analyzer.ts:97-104 | the earliest existing candidate is the one returned |
| FractalAnalyzer.ResolveComponentPath | packages/fractal-cli/src/utils/fractal-analyzer.ts:84-107 | the loop returns the first candidate that exists, or null |
| FractalAnalyzer.KeptComponents | packages/fractal-cli/src/utils/fractal-analyzer.ts:24-32 | exactly the components used as elements and resolving to a fractal file are kept |
| FractalAnalyzer.RegisteredNames | packages/fractal-cli/src/utils/fractal-analyzer.ts:35-39 | every registered name is non-empty |
| FractalAnalyzer.IsInternalComponent | packages/fractal-cli/src/utils/fractal-analyzer.ts:25-30 | a component is kept exactly when it is used as an element and its resolved file starts with the directive in either quote style |
| FractalAnalyzer.KeepInternal | packages/fractal-cli/src/utils/fractal-analyzer.ts:24-32 | the first loop adds the kept components, each once, in order |
| FractalAnalyzer.AddRegistered | packages/fractal-cli/src/utils/fractal-analyzer.ts:35-39 | the second loop adds every `registerModule` name, each once |
| FractalAnalyzer.FindInternalFractals | packages/fractal-cli/src/utils/fractal-analyzer.ts:5-45 | the result is the kept components, then the registered names, without duplicates; an unreadable file gives nothing |
| FractalAnalyzer.InternalFractalsSpec | packages/fractal-cli/src/utils/fractal-analyzer.ts:5-45 | the result has no duplicates and holds exactly the kept imported components and the registered names; an unreadable file gives nothing |
| GitInfo.GitRootIsNearest | packages/fractal-cli/src/utils/git-info-extractor.ts:77-98 | the root found is the nearest directory, from the file's directory upward, where the probe succeeds; it is never the filesystem root; when none is found every directory below the root was probed without success |
| GitInfo.FirstRepoIndex | packages/fractal-cli/src/utils/git-info-extractor.ts:81-95 | the first directory in the list where the probe succeeds is returned, and no earlier one succeeds |
| GitInfo.FindGitRoot | packages/fractal-cli/src/utils/git-info-extractor.ts:77-98 | the loop returns the nearest repository directory; the directories probed are the ancestors in order up to the one returned, never the root itself |
| GitInfo.SshAt | packages/fractal-cli/src/utils/git-info-extractor.ts:104 | an SSH match captures a non-empty host and a non-empty path, and the URL ends in ".git" |
| GitInfo.SshMatch | packages/fractal-cli/src/utils/git-info-extractor.ts:104 | the unanchored match is found at some position, and none exists when no position matches |
| GitInfo.SshUrlNormalized | packages/fractal-cli/src/utils/git-info-extractor.ts:102-107 | `git@host:path.git` becomes `https://host/path` |
| GitInfo.GitSuffixRemoved | packages/fractal-cli/src/utils/git-info-extractor.ts:111-113 | any other URL ending in ".git" loses exactly that suffix |
| GitInfo.WithoutSuffixUnchanged | packages/fractal-cli/src/utils/git-info-extractor.ts:115 | a URL that does not end in ".git" is returned unchanged |
| GitInfo.GitInfoSpec | packages/fractal-cli/src/utils/git-info-extractor.ts:12-75 | with no repository root the record is empty; otherwise a field is set exactly when its command succeeds, the URL is the normalised trimmed output, the branch and commit are the trimmed outputs, and `dirty` is always set, true exactly when the status output is non-blank |
| GitInfo.ExtractGitInfo | packages/fractal-cli/src/utils/git-info-extractor.ts:12-75 | setting the fields one command at a time gives the record described by `GitInfoSpec` |
| ManifestGenerator.CollapseSeparators | packages/fractal-cli/src/utils/manifest-generator.ts:71 | replacing every "::" by '_' never lengthens the name |
| ManifestGenerator.ReplaceUnsafe | packages/fractal-cli/src/utils/manifest-generator.ts:71 | each character outside letters, digits, '_' and '-' becomes '_', and every other character is kept in place |
| ManifestGenerator.SafeFileName | packages/fractal-cli/src/utils/fractal-builder.ts:102-104 | the safe name holds only letters, digits, '_' and '-' and is never longer than the fractal name |
| ManifestGenerator.SafeNameUnchanged | packages/fractal-cli/src/utils/manifest-generator.ts:71 | a name made only of safe characters is its own safe form |
| ManifestGenerator.SafeOfJoined | packages/fractal-cli/src/utils/manifest-generator.ts:71 | each "::" after a colon-free part becomes a single '_', and the parts are made safe on their own |
| ManifestGenerator.SafeIdentity | packages/fractal-cli/src/utils/manifest-generator.ts:71 | the safe form of `pkg::component::version` keeps its three parts apart with single underscores |
| ManifestGenerator.TripleColon | packages/fractal-cli/src/utils/manifest-generator.ts:71 | replacement runs left to right: ":::" becomes "_:" and then "__" |
| ManifestGenerator.ManifestPath | packages/fractal-cli/src/utils/manifest-generator.ts:72 | the manifest is written directly in the output directory |
| ManifestGenerator.ManifestSpec | packages/fractal-cli/src/utils/manifest-generator.ts:52-68 | the manifest names the fractal and its package's version, copies the package record, lists every declared dependency and lists the internal fractals without repeats |
| ManifestGenerator.RelativePathBelowPackage | packages/fractal-cli/src/utils/manifest-generator.ts:66 | a fractal below its package's directory is named by the path down from that directory |
| ManifestGenerator.GenerateManifest | packages/fractal-cli/src/utils/manifest-generator.ts:46-76 | the manifest path is returned exactly when it can be written; it then holds the serialised manifest and no other file changes |
| RegistryUploader.SelectFractals | packages/fractal-cli/src/utils/registry-uploader.ts:9 | only `.js` files that are not temp entries are selected, never more than were listed |
| RegistryUploader.SelectFractalsSpec | packages/fractal-cli/src/utils/registry-uploader.ts:9 | exactly the uploadable entries of the listing are selected |
| RegistryUploader.SourceMapNotUploaded | packages/fractal-cli/src/utils/registry-uploader.ts:9 | the source maps the builder writes are never uploaded |
| RegistryUploader.UploadNameOfBundle | packages/fractal-cli/src/utils/registry-uploader.ts:12 | a bundle `<name>.js` is uploaded under `name` |
| RegistryUploader.MetaPath | packages/fractal-cli/src/utils/registry-uploader.ts:14 | the metadata record is looked up directly in the output directory |
| RegistryUploader.MetadataDefault | packages/fractal-cli/src/utils/registry-uploader.ts:19 | a missing or unparsable metadata file is sent as `{}`, a readable one as parsed |
| RegistryUploader.RequestFor | packages/fractal-cli/src/utils/registry-uploader.ts:12-33 | a request exists exactly when the bundle can be read; it goes to `/api/fractals` with the bundle's name, code and metadata |
| RegistryUploader.RequestsToEndpoint | packages/fractal-cli/src/utils/registry-uploader.ts:23 | every request goes to the registry's upload endpoint |
| RegistryUploader.FirstFailure | packages/fractal-cli/src/utils/registry-uploader.ts:11-40 | every bundle before the first failure was read and accepted, and the one at it was not |
| RegistryUploader.FailureAt | packages/fractal-cli/src/utils/registry-uploader.ts:35-37 | the first bundle that does not get through, after a run of ones that do, is the first failure |
| RegistryUploader.RefusedStops | packages/fractal-cli/src/utils/registry-uploader.ts:35-37 | a refused bundle stops the upload: nothing after it is posted |
| RegistryUploader.AllAcknowledged | packages/fractal-cli/src/utils/registry-uploader.ts:11-42 | when every bundle is read and accepted the run reaches the end |
| RegistryUploader.UploadToRegistry | packages/fractal-cli/src/utils/registry-uploader.ts:5-47 | an unreadable directory posts nothing and fails; otherwise the bundles up to the first failure are posted in order, success means all got through, and the error names a failed read, the network failure of a rejected `fetch`, or the refused bundle and the registry's status text |
| RegistryUploader.UploadFailure | packages/fractal-cli/src/utils/registry-uploader.ts:23-37 | a rejected `fetch` reports the network error, a response that is not ok reports the bundle's name and the registry's status text |
| RegistryTransform.DirectiveLength | packages/fractal-registry/src/transform.ts:3 | a directive match is at least the quoted `use fractal` and lies within the source |
| RegistryTransform.DirectiveLengthSpec | packages/fractal-registry/src/transform.ts:3-11 | the match exists exactly when the source opens with a quoted `use fractal`; it spans the optional semicolon and the whole whitespace run after it |
| RegistryTransform.EitherQuoteAccepted | packages/fractal-registry/src/transform.ts:3 | either quote may open and either may close the directive |
| RegistryTransform.LeadingWhitespaceRejected | packages/fractal-registry/src/transform.ts:3-8 | a source that opens with whitespace is refused |
| RegistryTransform.TemplateOfBlock | packages/fractal-registry/src/transform.ts:34 | the template pattern matches a `<style ...>{`css`}</style>` element in full and captures its body |
| RegistryTransform.PlainOfBlock | packages/fractal-registry/src/transform.ts:38 | the plain pattern matches a `<style ...>css</style>` element in full and captures its body |
| RegistryTransform.TemplateNotAtPlain | packages/fractal-registry/src/transform.ts:34 | a plain style element whose body does not open with `{` is not matched by the template pattern |
| RegistryTransform.NoStyleWhere | packages/fractal-registry/src/transform.ts:34-38 | neither style pattern matches in a stretch without `<`, nor at the end of the text |
| RegistryTransform.TemplatePassSkipsPlain | packages/fractal-registry/src/transform.ts:34-37 | the first pass removes only the template element and collects its trimmed body, leaving a plain element before it alone |
| RegistryTransform.PlainPassOne | packages/fractal-registry/src/transform.ts:38-41 | the second pass removes a plain element and collects its trimmed body |
| RegistryTransform.CssImportOfStatement | packages/fractal-registry/src/transform.ts:42 | `import '<path>.css';` is removed as a whole |
| RegistryTransform.BindingImportKept | packages/fractal-registry/src/transform.ts:42 | an import that binds a name, such as `import styles from './a.css'`, is left in the code |
| RegistryTransform.StyledOfTemplate | packages/fractal-registry/src/transform.ts:43 | a styled tagged template is matched as a whole, with its tag and its CSS as the groups |
| RegistryTransform.ClassName | packages/fractal-registry/src/transform.ts:44 | every generated class starts with `f-<id>-` |
| RegistryTransform.StyledRuleMatchesElement | packages/fractal-registry/src/transform.ts:44-46 | the component a styled template becomes and the rule it contributes name the same class |
| RegistryTransform.StylesOf | packages/fractal-registry/src/transform.ts:49 | the styles are null exactly when the collected text is blank, and otherwise are that text trimmed |
| RegistryTransform.PassUnchanged | packages/fractal-registry/src/transform.ts:33-47 | a pass whose pattern matches nowhere leaves the text unchanged and collects nothing |
| RegistryTransform.NothingToExtract | packages/fractal-registry/src/transform.ts:30-50 | a source in which no pattern matches comes back trimmed, with null styles |
| RegistryTransform.StylesInPassOrder | packages/fractal-registry/src/transform.ts:30-50 | the styles follow the order of the passes, not of the source: a template element's CSS comes before that of a plain element above it, and both elements leave the code |
| RegistryTransform.TransformFractal | packages/fractal-registry/src/transform.ts:5-28 | a source without the directive is refused with "Missing fractal directive"; otherwise the compiled code is esbuild's output for the extracted code, which fails exactly when esbuild does, and the styles are the extracted ones |
| RegistryStore.RecordFileInjective | packages/fractal-registry/src/store.ts:64-76 | different ids are kept in different files |
| RegistryStore.StoredStyles | packages/fractal-registry/src/store.ts:57 | styles are stored exactly when they are present and non-empty, and then unchanged |
| RegistryStore.NewRecord | packages/fractal-registry/src/store.ts:53-60 | the record carries the id, the source, the compiled code and the posted manifest, and stores only non-empty styles |
| RegistryStore.EmptyStylesNotStored | packages/fractal-registry/src/store.ts:57 | a transform without styles, or with an empty style sheet, stores none |
| RegistryStore.Lookup | packages/fractal-registry/src/store.ts:71-83 | a cached record is returned as cached; otherwise a record is found exactly when its file exists and parses |
| RegistryStore.CacheAfterGet | packages/fractal-registry/src/store.ts:78 | a record found is cached under its id, and a miss leaves the cache as it was |
| RegistryStore.FractalStore.constructor | packages/fractal-registry/src/store.ts:45-48 | the store starts with an empty cache and creates its storage directory |
| RegistryStore.FractalStore.AddFractal | packages/fractal-registry/src/store.ts:50-69 | a source the transform refuses is rejected and nothing changes; otherwise the record is cached first, then written to `<id>.json`, and a failed write rejects but leaves the record cached |
| RegistryStore.FractalStore.GetFractal | packages/fractal-registry/src/store.ts:71-83 | the answer is the cached record, else the parsed file, else nothing, and a record read from a file is cached |
| RegistryStore.LookupAfterAdd | packages/fractal-registry/src/store.ts:62-73 | once a record is cached it is what a read returns, whatever the files hold |
| RegistryStore.LookupOtherAfterAdd | packages/fractal-registry/src/store.ts:62-66 | adding a record changes no other id's answer, whether or not its file was written |
| RegistryStore.LookupStable | packages/fractal-registry/src/store.ts:75-79 | reading the same id again gives the same answer |
| RegistryStore.MissLeavesCache | packages/fractal-registry/src/store.ts:80-82 | a missing or unparsable file gives nothing and leaves the cache as it was |
| RegistryStore.PersistedRecordReadable | packages/fractal-registry/src/store.ts:63-78 | a written record is read back by a fresh store over the same directory, as far as parsing undoes serialising |
| RegistryRoutes.MetadataResponse | packages/fractal-registry/src/routes/fractals.ts:6-21 | 404 "Not found" exactly when no record is found; otherwise 200 JSON carrying the stored styles and `hasManifest` true exactly when the manifest is truthy |
| RegistryRoutes.MetadataLinks | packages/fractal-registry/src/routes/fractals.ts:16-17 | the links handed out lead to the code and manifest routes of the same id on the request's origin |
| RegistryRoutes.WrapCompiledEmbeds | packages/fractal-registry/src/routes/fractals.ts:31-42 | the compiled code is embedded verbatim between the fixed module prelude and epilogue |
| RegistryRoutes.WrapCompiledInjective | packages/fractal-registry/src/routes/fractals.ts:31-42 | different compiled code is served as different module text |
| RegistryRoutes.CodeResponse | packages/fractal-registry/src/routes/fractals.ts:23-47 | an empty 404 text without a record; otherwise 200 with the wrapped compiled code as JavaScript |
| RegistryRoutes.ShimRequire | packages/fractal-registry/src/routes/fractals.ts:35-37 | `require('react')` is the page's React; any other name is the module table's entry, or `{}` when that is falsy or the table is absent |
| RegistryRoutes.ShimRequireTruthy | packages/fractal-registry/src/routes/fractals.ts:37 | outside 'react', `require` never yields a falsy value |
| RegistryRoutes.ManifestResponse | packages/fractal-registry/src/routes/fractals.ts:49-62 | 404 exactly when there is no record ("Not found") or no manifest ("Manifest not available"); otherwise 200 with the manifest |
| RegistryRoutes.HasManifestAgrees | packages/fractal-registry/src/routes/fractals.ts:19-61 | `hasManifest` in the metadata is true exactly when the manifest route serves one |
| RegistryRoutes.PublishedResponse | packages/fractal-registry/src/routes/fractals.ts:74-78 | the publish answer is 200 with the record's id, creation time and whether it has a manifest |
| RegistryRoutes.GetMetadata | packages/fractal-registry/src/routes/fractals.ts:6-21 | the handler answers `MetadataResponse` for what the store's lookup found, and the store's cache is updated as that lookup does |
| RegistryRoutes.GetCode | packages/fractal-registry/src/routes/fractals.ts:23-47 | the handler answers `CodeResponse` for what the lookup found, with the lookup's cache update |
| RegistryRoutes.GetManifest | packages/fractal-registry/src/routes/fractals.ts:49-62 | the handler answers `ManifestResponse` for what the lookup found, with the lookup's cache update |
| RegistryRoutes.Publish | packages/fractal-registry/src/routes/fractals.ts:64-79 | a falsy source is answered 400 and the store is untouched; otherwise a refused transform rejects and changes nothing; an accepted one is cached, and the handler answers the published record exactly when its file is written, the files otherwise unchanged |
| ModuleRegistry.Registered | packages/fractal/src/module-registry.ts:4-14 | registration fails exactly for a name that is not a non-empty string (checked first) or a falsy module, with the source's messages; otherwise the entry is set and every other entry is kept |
| ModuleRegistry.Get | packages/fractal/src/module-registry.ts:16-18 | a registered name gives its module, any other `undefined` |
| ModuleRegistry.WindowGetModule | packages/fractal/src/module-registry.ts:50 | the window's `getModule` gives `{}` for an unknown name and the module for a registered truthy one |
| ModuleRegistry.RegisteredWellFormed | packages/fractal/src/module-registry.ts:5-13 | every entry of a table built by registration has a non-empty name and a truthy module |
| ModuleRegistry.GetAfterRegister | packages/fractal/src/module-registry.ts:13-17 | after a registration, `get` returns the module registered, and every other name's answer is unchanged |
| ModuleRegistry.RegisterOverwrites | packages/fractal/src/module-registry.ts:13 | registering a name twice keeps only the second module |
| ModuleRegistry.WindowGetModuleTruthy | packages/fractal/src/module-registry.ts:50 | in a table built by registration, the window's `getModule` never yields a falsy value |
| ModuleRegistry.SizeAfterRegister | packages/fractal/src/module-registry.ts:13-33 | a new name grows the table by one, and re-registering keeps its size |
| ModuleRegistry.Registry.constructor | packages/fractal/src/module-registry.ts:2-37 | the registry starts empty |
| ModuleRegistry.Registry.Register | packages/fractal/src/module-registry.ts:4-14 | the table becomes what `Registered` gives, and a refused registration throws its error and changes nothing |
| ModuleRegistry.Registry.GetModule | packages/fractal/src/module-registry.ts:16-18 | the method answers as `Get` on the current table |
| ModuleRegistry.Registry.Has | packages/fractal/src/module-registry.ts:20-22 | in a table built by registration, `has` is true exactly when `get` is not `undefined` |
| ModuleRegistry.Registry.GetAll | packages/fractal/src/module-registry.ts:24-26 | one property per entry, holding what `get` returns for it |
| ModuleRegistry.Registry.Size | packages/fractal/src/module-registry.ts:32-34 | the number of distinct names |
| ModuleRegistry.Registry.Clear | packages/fractal/src/module-registry.ts:28-30 | the table is emptied |
| RuntimeRegistryUrl.DetectRegistryUrl | packages/fractal/src/index.ts:11-31 | the public environment variable wins, then the page's `__ENV__` entry; without either and without a window the URL is `http://localhost` on the default port |
| RuntimeRegistryUrl.DetectRegistryUrlTsx | packages/fractal/src/index.tsx:10-13 | the same precedence, with the page's protocol and hostname used as they are when neither override is set |
| RuntimeRegistryUrl.DetectVersionsAgree | packages/fractal/src/index.tsx:10-13 | the two versions agree whenever `process` exists and the page's protocol and hostname are non-empty |
| RuntimeRegistryUrl.DetectVersionsDifferOnEmptyHost | packages/fractal/src/index.ts:28 | an empty hostname is where the versions part: one falls back to `localhost`, the other keeps it empty |
| RuntimeRegistryUrl.DefaultUrlPort | packages/fractal/src/index.ts:26-30 | without an override the URL ends in `:8080` exactly when `NODE_ENV` is `production`, and in `:3001` otherwise |
| RuntimeInit.SharedModules | packages/fractal/src/index.tsx:29-47 | the shared names are distinct, always include react and react-dom, and include the Next.js modules exactly on a Next.js page |
| RuntimeInit.RegisterLoaded | packages/fractal/src/index.tsx:49-60 | registering the imported modules never removes an entry |
| RuntimeInit.RegisterLoadedHas | packages/fractal/src/index.tsx:50-53 | each shared name whose import resolves to a truthy module is registered to it |
| RuntimeInit.RegisterLoadedKeeps | packages/fractal/src/index.tsx:49-60 | names that are not imported keep their entries, so a caller's own registration survives start-up |
| RuntimeInit.RegisterLoadedOthers | packages/fractal/src/index.tsx:50-53 | registering one shared name leaves every other name's entry as it was |
| RuntimeInit.InitializedModules | packages/fractal/src/index.tsx:26-27 | without a window nothing is registered; with one, the shared modules are |
| RuntimeInit.InitializedHasReact | packages/fractal/src/index.ts:50-77 | with a window, a react import that resolves is registered |
| RuntimeInit.PerformInitialization | packages/fractal/src/index.tsx:26-61 | the loop leaves the table `InitializedModules` describes |
| RuntimeInit.Initializer.constructor | packages/fractal/src/index.ts:38-39 | the closure starts with no promise, not initialized and no run |
| RuntimeInit.Initializer.AutoInitialize | packages/fractal/src/index.ts:37-84 | the initialization runs at most once: the first call runs it under a new promise, later calls return that promise and change nothing, and once index.ts has finished a run with a window it answers an already resolved promise |
| RuntimeInit.RegisterEntriesFails | packages/fractal/src/index.ts:182-186 | registering the caller's modules fails exactly when one entry is refused |
| RuntimeInit.RegisterEntriesStops | packages/fractal/src/index.ts:183-185 | once an entry is refused, the later entries change nothing |
| RuntimeInit.RegisterAll | packages/fractal/src/index.ts:183-185 | the `forEach` registers the entries in order and stops at the first refused one |
| RuntimeInit.SetupFractals | packages/fractal/src/index.ts:177-194 | a refused module throws before any preload or initialization; otherwise a preload runs exactly when both a list and a non-empty registry URL are given, then `autoInitialize` |
| RuntimeLoader.Decimal | packages/fractal/src/index.tsx:66 | a status code prints as at least one digit |
| RuntimeLoader.LentTo | packages/fractal/src/index.tsx:71-72 | the module runs with `React` lent under both names, every other global kept |
| RuntimeLoader.LoadModuleResult | packages/fractal/src/index.tsx:63-89 | a rejected request rejects; index.tsx rejects a response that is not ok with its status and status text; otherwise the result is the evaluation of the body with `React` lent |
| RuntimeLoader.GlobalsAfterLoad | packages/fractal/src/index.ts:90-97 | once the text ran, both lent names are deleted, even when they were there before; otherwise nothing changed; no other global is added or changed |
| RuntimeLoader.LoadModule | packages/fractal/src/index.ts:86-98 | the method settles as `LoadModuleResult` and leaves the window's globals as `GlobalsAfterLoad` describes |
| RuntimeLoader.LoadModuleCleansUp | packages/fractal/src/index.tsx:85-88 | after a module's text has run, `React` and `react` are gone from the window |
| RuntimeLoader.ComponentOf | packages/fractal/src/index.tsx:127 | the component is the module's truthy default export, else the module itself; an undefined or null module throws |
| RuntimeLoader.LoadFractal | packages/fractal/src/index.tsx:114-141 | a load succeeds only after an ok, parsable metadata response and a module that loads, and then carries the metadata's styles; given those, it succeeds exactly when a component can be taken from the module |
| RuntimeLoader.LoadFractalVersions | packages/fractal/src/index.ts:86-98 | the two versions settle alike when the module response is ok and their two ways of evaluating its text agree on it; when it is not ok, index.tsx settles to null |
| RuntimeLoader.EffectiveRegistry | packages/fractal/src/index.ts:107 | a non-empty registry argument wins over the context's |
| RuntimeLoader.InitialModule | packages/fractal/src/index.ts:108 | the hook starts with the cached fractal exactly when the id is cached |
| RuntimeLoader.Decide | packages/fractal/src/index.ts:110-121 | nothing is done without a registry or for a cached id; an id in flight is awaited; otherwise a load starts from the metadata route |
| RuntimeLoader.AfterEffect | packages/fractal/src/index.ts:113-139 | the effect never writes the cache; the subscriber joins the load in flight or starts a new one |
| RuntimeLoader.AfterSettle | packages/fractal/src/index.ts:129-135 | a settled load leaves the pending table; a loaded fractal is cached, a failure is not |
| RuntimeLoader.Deliveries | packages/fractal/src/index.ts:115-139 | every subscriber of a load receives the same outcome, in subscription order |
| RuntimeLoader.EffectKeepsDisjoint | packages/fractal/src/index.ts:110-139 | no id is ever both cached and in flight after an effect |
| RuntimeLoader.SettleKeepsDisjoint | packages/fractal/src/index.ts:129-135 | no id is ever both cached and in flight after a load settles |
| RuntimeLoader.OneLoadPerId | packages/fractal/src/index.ts:113-117 | while a load of an id is in flight, later renders subscribe to it rather than fetching again |
| RuntimeLoader.CachedFromAnyRegistry | packages/fractal/src/index.ts:111 | a cached fractal is never fetched again, even for a different registry |
| RuntimeLoader.FailureAllowsRetry | packages/fractal/src/index.ts:133-135 | a failed load is forgotten, so the next render with a registry starts a fresh one |
| RuntimeLoader.NoRegistryNoLoad | packages/fractal/src/index.ts:111 | without an effective registry nothing is loaded and the state is left alone |
| RuntimeLoader.Loader.constructor | packages/fractal/src/index.ts:7-8 | the cache and the pending table start empty |
| RuntimeLoader.Loader.UseFractalEffect | packages/fractal/src/index.ts:110-140 | the effect takes the decision `Decide` describes and leaves the state `AfterEffect` describes |
| RuntimeLoader.Loader.Settle | packages/fractal/src/index.ts:123-139 | settling updates the state as `AfterSettle` describes and delivers the outcome to every subscriber |
| RuntimeLoader.Render | packages/fractal/src/index.tsx:151-171 | without a module only the fallback is rendered; otherwise a style element comes first exactly when the styles are non-empty, and then the component with the given props |
| RuntimeLoader.PreloadTarget | packages/fractal/src/index.tsx:173-189 | a cached id or a failed request or parse loads nothing; index.tsx loads only after an ok response; the module URL is the metadata's |
| RuntimeLoader.PreloadTargets | packages/fractal/src/index.ts:165-174 | at most one module is loaded per id |
| RuntimeLoader.PreloadSkipsCached | packages/fractal/src/index.ts:167 | preloading only cached ids loads nothing |
| RuntimeLoader.Preload | packages/fractal/src/index.ts:165-174 | the loop loads the module URLs `PreloadTargets` lists, in order, leaves the loader's cache alone, and restores the window's globals up to the lent ones |
| PluginDetector.StripScriptExtension | packages/fractal-plugin/src/detector.ts:36 | at most a three- or four-character suffix is removed, and what is kept is a prefix of the name |
| PluginDetector.StripScriptExtensionOf | packages/fractal-plugin/src/detector.ts:36 | each of `.ts`, `.tsx`, `.js`, `.jsx` at the end is removed exactly |
| PluginDetector.StripScriptExtensionOther | packages/fractal-plugin/src/detector.ts:36 | a name with none of those endings is kept whole |
| PluginDetector.Slug | packages/fractal-plugin/src/detector.ts:37 | every `/` and `\` becomes `-`, and every other character stays in place |
| PluginDetector.FractalIdFlat | packages/fractal-plugin/src/detector.ts:35-37 | an id holds no path separator, and apart from the dashes it is the path without its extension |
| PluginDetector.Detect | packages/fractal-plugin/src/detector.ts:29-41 | a file yields a record exactly when its text contains `use fractal` anywhere; the record holds the id, the joined path, the full text and its hash |
| PluginDetector.DetectFractals | packages/fractal-plugin/src/detector.ts:21-46 | at most one record per globbed file |
| PluginDetector.AllRead | packages/fractal-plugin/src/detector.ts:27-31 | all texts are available exactly when every file was read, and then each is paired with its own path, in order |
| PluginDetector.DetectAll | packages/fractal-plugin/src/detector.ts:27-45 | one unreadable file makes the whole detection fail; otherwise the records are those of the texts read |
| PluginDetector.DetectFractalsSound | packages/fractal-plugin/src/detector.ts:32-45 | every record is the record of a globbed file that mentions the directive |
| PluginDetector.DetectFractalsComplete | packages/fractal-plugin/src/detector.ts:32-45 | every globbed file that mentions the directive is detected |
| PluginDetector.UploadError | packages/fractal-plugin/src/detector.ts:53-65 | an upload fails exactly when the request rejects or the response is not ok |
| PluginDetector.UploadErrorsIff | packages/fractal-plugin/src/detector.ts:48-70 | an id is in the error map exactly when some upload under that id failed |
| PluginDetector.UploadErrorOfLast | packages/fractal-plugin/src/detector.ts:64 | a failing last upload's error is the one kept under its id |
| PluginDetector.UploadFractals | packages/fractal-plugin/src/detector.ts:48-70 | the loop returns the error map `UploadErrors` describes, and the method never fails |
| PluginLoader.DirectiveMatch | packages/fractal-plugin/src/loaders/fractal-loader.ts:8 | a directive match never runs past the end of the source |
| PluginLoader.LastN | packages/fractal-plugin/src/loaders/fractal-loader.ts:27 | `slice(-3)`: the last three pieces, or all of them when there are fewer |
| PluginLoader.LoaderIdShape | packages/fractal-plugin/src/loaders/fractal-loader.ts:24-29 | a loader id holds no upper-case letter and no path separator |
| PluginLoader.DetectorIdNotLoaderId | packages/fractal-plugin/src/loaders/fractal-loader.ts:24-29 | an id from the plugin's detector that keeps an upper-case letter is never the loader's id of any file, so the two id schemes disagree |
| PluginLoader.FractalLoader | packages/fractal-plugin/src/loaders/fractal-loader.ts:10-46 | without an async callback the loader throws; a source without the directive passes unchanged; otherwise the directive is cut and the rest is wrapped under the loader's id |
| PluginLoader.EmitEmbedsSource | packages/fractal-plugin/src/loaders/fractal-loader.ts:31-33 | the emitted module opens with the runtime import and then holds the rest of the source verbatim |
| PluginLoader.QuotedDirectiveRecognised | packages/fractal-plugin/src/loaders/fractal-loader.ts:8 | a quoted directive after leading whitespace is recognised, whichever quote opens or closes it |
| PluginLoader.CommentDirectiveRecognised | packages/fractal-plugin/src/loaders/fractal-loader.ts:8 | a `// use fractal` line comment is recognised, and the match ends after its line break |
| PluginLoader.OtherSourcePassesThrough | packages/fractal-plugin/src/loaders/fractal-loader.ts:18-21 | a source opening with `import` has no directive, so it passes through |
| NextjsPlugin.ShouldUpload | packages/fractal-plugin/src/nextjs-plugin.ts:14-23 | a missing setting uploads; a flag is used as it is; per mode, development defaults to on and production to off |
| NextjsPlugin.EmptyModesUploadInDevelopmentOnly | packages/fractal-plugin/src/nextjs-plugin.ts:22-23 | an empty per-mode object uploads in development only |
| NextjsPlugin.PluginFor | packages/fractal-plugin/src/nextjs-plugin.ts:25-30 | the plugin gets the registry URL, watches in development, is rooted at the project directory and uploads as `ShouldUpload` says |
| NextjsPlugin.FractalHook | packages/fractal-plugin/src/nextjs-plugin.ts:18-33 | without a user hook, the plugin is appended to an existing plugin list and nothing else changes |
| NextjsPlugin.UserHookRunsAfter | packages/fractal-plugin/src/nextjs-plugin.ts:25-32 | the user's hook sees the list with the plugin pushed; its non-null result wins, otherwise webpack's configuration is returned |
| NextjsPlugin.WithFractal | packages/fractal-plugin/src/nextjs-plugin.ts:11-35 | `enabled: false` returns the configuration unchanged; otherwise every other field is kept and the installed webpack hook computes `FractalHook` with the user's own hook |
| NextjsPlugin.HookChainsUserHook | packages/fractal-plugin/src/nextjs-plugin.ts:16-33 | with a hook of the user's, the installed hook hands it the configuration with the plugin appended, and its non-null result wins |
| NextjsPlugin.HookAppendsPlugin | packages/fractal-plugin/src/nextjs-plugin.ts:16-33 | with no hook of the user's, the installed hook returns webpack's configuration with exactly one plugin appended |
| NextjsPlugin.NoPluginListNoPlugin | packages/fractal-plugin/src/nextjs-plugin.ts:25 | without a plugin list the hook adds nothing |
| Directives.CliImpliesPluginDetector | packages/fractal-cli/src/utils/fractal-detector.ts:52-60 | every file the CLI accepts as a fractal is also picked up by the plugin's detector, which only checks for a mention (packages/fractal-plugin/src/detector.ts:32) |
| Directives.CliImpliesPluginLoader | packages/fractal-plugin/src/loaders/fractal-loader.ts:8 | every file the CLI accepts as a fractal also gets rewritten by the plugin's loader |
| Directives.CliImpliesAnalyzer | packages/fractal-cli/src/utils/fractal-analyzer.ts:112-113 | every file the CLI detector accepts, the analyzer counts as a fractal |
| Directives.RegistryImpliesPluginLoader | packages/fractal-registry/src/transform.ts:3 | every source the registry accepts, the loader accepts, and both cut the same prefix |
| Directives.SingleQuotesRegistryOnly | packages/fractal-registry/src/transform.ts:3 | the registry accepts a single-quoted directive that the CLI detector refuses |
| Directives.IndentedDirectiveCliOnly | packages/fractal-cli/src/utils/fractal-detector.ts:56 | the CLI skips leading whitespace before the directive, while the registry refuses it |
| Directives.MentionIsNoDirective | packages/fractal-plugin/src/detector.ts:32 | a mere mention is detected by the plugin's detector, while its loader passes the file through |

## Left out

- I/O is passed in as inputs and parameters:
  - glob results arrive as input lists, and their ignore patterns are not modelled;
  - file contents, directory listings, `fetch`, `git`, the bundler, module evaluation, hashing, randomness and the clock are all parameters;
  - console logging, including development-mode warnings, is not modelled.
- Concurrency runs sequentially in list order. This covers `Promise.all` and `Promise.allSettled` over builds, uploads and module registrations. Interleavings are not modelled, in particular two renders racing a load and the start of a pending entry.
- Paths are resolved absolute paths, each a sequence of segments. Path normalisation (`..`, `.`, repeated separators) and Windows drive letters are not modelled.
- Fractal ids and names are assumed not to contain path separators when they are joined into file names.
- Case mapping is ASCII only. `toUpperCase` and `toLowerCase` of other letters leave them unchanged in the model.
- JSON is handled in two ways:
  - the records the model writes are stored structurally;
  - parsing foreign JSON (`package.json`, metadata responses, request bodies) is an oracle that may fail.
- Some JSON shapes are not modelled:
  - `JSON.parse` returning `null` for a record file;
  - string fields of a non-string JSON type;
  - keys that `Object.fromEntries` treats specially;
  - malformed request bodies beyond a missing `source`.
- Component names are treated as literal text. The source builds regular expressions from them, so names with regex metacharacters behave differently there.
- `fractalPatterns` in packages/fractal-cli/src/utils/fractal-analyzer.ts:11-18 is declared but never read, so it is not modelled.
- `webpack-plugin.ts` is not part of this model: its watch mode, compilation hooks and asset emission. The Next.js hook is modelled up to the options of the plugin it constructs.
- The server entry of the registry is not part of this model. So is its `server.ts`. The CLI uploader posts to `/api/fractals` with `{ name, code, metadata }`, while the routes modelled here answer `/fractals/:id` with `{ source }`. How the two connect is not modelled.
- The runtime is modelled only partly:
  - React rendering is reduced to the list of elements the `Fractal` component returns;
  - hooks' re-render scheduling and effect cleanup are not modelled;
  - a page without a `location` object is not modelled;
  - in `index.tsx`, `process` is assumed to exist;
  - `__ENV__` values other than strings are not modelled;
  - styles that are falsy without being the empty string (such as `0`) are not modelled.
- `index.tsx` wraps the initialization promise in an extra `async` function. The model hands out the promise itself, because both settle alike.
- `mkdir` in the registry store is not awaited. The model creates the directory before the first write.
- FractalBuilder.Builder.PrepareBuild: it writes the entry of the corrected transform (`CliTransformer.TransformFixed`, see Findings), not that of the as-written `transform` that packages/fractal-cli/src/utils/fractal-builder.ts:107 calls. The builder is thus modelled as the corrected program; as written, an entry whose declaration is `export default function C` exports `default` twice and the bundler rejects it.
- FixedExportsOnce: says nothing about a file with no export declaration whose base name is empty or holds a space, `;` or a line break. The glue is then not valid JavaScript in either version.
- RuntimeLoader.Render: the defaults `props = {}` and `fallback = null` (packages/fractal/src/index.tsx:151) are explicit parameters.
- RuntimeLoader.LoadFractalVersions: the evaluation oracle takes the version, because index.ts runs `eval(code)` (packages/fractal/src/index.ts:93) while index.tsx runs the text as one expression inside `with (window)` (packages/fractal/src/index.tsx:78-82). JavaScript evaluation itself is not modelled, so the lemma's agreement for ok responses holds only where the two evaluations agree on the module text.
- FractalAnalyzer.FirstExisting: a candidate exists when it is a file in the tree. `fs.access` (packages/fractal-cli/src/utils/fractal-analyzer.ts:99) also succeeds for a directory or an unreadable file; the source then returns that path and `isFractalFile` rejects it, while the model goes on to the next candidate.
- The webpack loader's `catch` is unreachable for string sources, so it is not modelled. A missing `nextConfig` argument is the empty configuration, and the model takes it as an explicit value.
- RegistryRoutes.Publish: a POSTed `source` that is truthy but not a string (an array, say) is rejected as lacking the directive. The source's regex test would first stringify it, and may then accept it.
- PluginLoader.DirectiveMatch: its own contract states only that a match stays within the source. What it recognises is stated by `QuotedDirectiveRecognised`, `CommentDirectiveRecognised` and `OtherSourcePassesThrough`, and by `Directives.RegistryImpliesPluginLoader` and `Directives.CliImpliesPluginLoader`.

## Findings

| source | as written | input that shows it | evidently intended | confidence | as-written member | corrected member |
|---|---|---|---|---|---|---|
| packages/fractal-cli/src/utils/fractal-transformer.ts:41-42 | the glue always appends `export { C };` and `export default C;`, even when the declaration it took the name from already exports `C` by name or as default | a source holding `export default function Card() {}` gives an entry with two default exports, which the bundler rejects | each name is exported once: the glue adds only the export forms the declaration does not already provide | not executed | CliTransformer.DefaultFunctionExportedTwice | CliTransformer.FixedExportsOnce |
