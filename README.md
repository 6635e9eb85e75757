# vue-sfc-in-html, modelled in Dafny

The library lets a plain HTML page hold Vue single-file components inside
`<noscript type="vue-sfc">` elements. When the page loads, the script
`src/index.js` does the following:

- reads every such element, from its inner HTML or from its `src` URL;
- turns the component's image imports into small data-URI modules;
- compiles the component with `@vue/compiler-sfc` into an ES module;
- publishes that module under a blob URL in a generated import map;
- appends a module script that creates and mounts one Vue app per element
  with a `mount` selector.

`src/compiler.worker.js` runs the same compilation in a web worker. There,
data URIs replace blob URLs, and the worker posts back the data URI of the
module, not its text. Nothing in `src/index.js` starts the worker.

The model has these modules:

| module | models |
|---|---|
| `Wrappers` | `Option` and `Result` |
| `Text` | line splitting, `join`, decimal numerals, offsets of the parts of a joined text |
| `Utf16` | JavaScript strings as UTF-16 code units; their well-formed strings correspond to Dafny strings |
| `Utf8` | UTF-8 encoding and decoding (RFC 3629) |
| `Base64` | Base 64 encoding and strict decoding (section 4 of RFC 4648) |
| `UriCodec` | `encodeURIComponent`, `unescape` and `btoa` on code units, and `toBase64`, their composition |
| `Sfc` | the compiler interface: `parse`, `compileScript`, `compileTemplate` and `compileStyle`, given as arbitrary functions; also the compile pipeline that both `transformVueSFC` functions share and the text of the module they build |
| `Assembler` | `transformVueSFC` of `src/index.js`: map comments through `toBase64`, CSS prefixed by the mount selector, blob URLs |
| `Worker` | `src/compiler.worker.js`: data URIs, unprefixed CSS, and the `onmessage` handler as a class whose state is the list of posted messages |
| `Component` | `makeComponent`: name normalisation, the image-import rewrite as a loop checked against specification functions, and the element as a class whose `module` attribute is set |
| `Page` | `setup`: the `Promise.all` collection as a loop, the import-map merge, the two inserted scripts, and the page as a class holding the global `map` |

The page's side effects are parameters:

- `generateID` is the `id` and `imgId` parameters;
- `JSON.stringify` of a source map is a function parameter;
- `getBlobURL` is a function parameter, and `fetch` is the fetched text;
- `new URL(path, base).href` is a function parameter, and `location.href`
  is a string;
- `imageImportRegex` is a function that splits the source into `Segment`s.
  `Component.Splits` requires the segments to put every source back
  together, as `replace` keeps every character outside the matches.

The compiler's results are arbitrary. Every property below therefore holds
whatever the compiler returns.

Where the code and the library's documented behaviour disagree, the model
follows the code:

- The import map entry of a component uses the raw `component` attribute
  (`src/index.js:132`). It does not use the name ending in `.vue` that is
  written to the `module` attribute.
- Component entries overwrite external and framework entries of the same
  name (`src/index.js:154`).
- One failing component rejects `Promise.all`. `setup` then throws and
  installs nothing; the failing component is not silently skipped.
- A component without a `<template>` fails. Reading
  `descriptor.template.content` throws a TypeError, modelled as
  `MissingTemplate`.
- Errors that `compileTemplate` and `compileStyle` report in their results
  are ignored. Only thrown exceptions are fatal.
- The worker posts the bare data URI of the module. It sends no
  correlation id and swallows every exception (`src/compiler.worker.js:89-94`).
- The text of each compiled style block is preceded once by `<mount> `
  (`src/index.js:54`). Only the first rule of a block gets the selector.
  Without a `mount` attribute the prefix is `null ` (`src/index.js:112`).

## Model

| member | source | states |
|---|---|---|
| Base64.DecodeEncode | src/index.js:4 | decoding the Base 64 text that `btoa` produces gives back exactly the encoded octets |
| Base64.EncodeAlphabet | src/index.js:4 | the encoding uses only characters of the Base 64 alphabet and `=`, and `=` only in the last group |
| Utf8.DecodeEncode | src/index.js:4 | the UTF-8 octets of a string decode back to the string |
| Utf16.ToScalarsFromString | src/index.js:4 | the code units of a string read back as the same string |
| Utf16.FromStringToScalars | src/index.js:4 | well-formed code units are the code units of the string they read as |
| UriCodec.UnescapeEncodeUriComponent | src/index.js:4 | `encodeURIComponent` succeeds exactly on well-formed code units, and `unescape` of its result is the UTF-8 of the string |
| UriCodec.ToBase64 | src/index.js:3-5 | definition: `encodeURIComponent`, then `unescape`, then `btoa`; its contract is proved by UriCodec.ToBase64IsUtf8Base64, UriCodec.ToBase64Shape and UriCodec.ToBase64Text |
| UriCodec.ToBase64IsUtf8Base64 | src/index.js:3-5 | `toBase64` throws a URIError exactly for an unpaired surrogate; otherwise it returns Base 64 of the UTF-8 |
| UriCodec.ToBase64Text | src/index.js:3-5 | `toBase64` of a well-formed string never throws, and gives Base 64 of the UTF-8 |
| UriCodec.ToBase64Shape | src/index.js:3-5 | a successful result has length 4 * ceil(n / 3) for n UTF-8 octets and uses only the Base 64 alphabet and `=` |
| UriCodec.Utf8Base64RoundTrip | src/index.js:28 | a map comment's payload decodes, first as Base 64 and then as UTF-8, to the original text |
| UriCodec.Utf8Base64Inert | src/compiler.worker.js:78-79 | Base 64 text holds no line break, quote or backslash |
| Sfc.TagTemplateMap | src/index.js:40 | the first source gets `?template` appended (an empty list becomes `undefined?template`); the other sources and all other fields are unchanged |
| Sfc.CompileStyles | src/index.js:45-52 | on success, one result per style block, in order, each from compiling that block; on failure, the error of the first block that throws |
| Sfc.Compile | src/index.js:10-59 | definition of the pipeline both transforms share (also src/compiler.worker.js:23-76); its contract is proved by Sfc.CompileFailures, Sfc.CompileOptions, Sfc.CompileSteps, Sfc.CompileStyled and Sfc.CompileAgree |
| Sfc.CompileFailures | src/index.js:10-38 | parse errors fail first; then a missing template fails; any other failure is an exception thrown by a compiler |
| Sfc.CompileOptions | src/index.js:10-26 | a successful compile parsed without errors and had a template; the scope id exists exactly when some style is scoped and is then `data-v-<id>`; the template options carry the id, the template source, the scoped flag and the scope id in module mode |
| Sfc.CompileSteps | src/index.js:26-42 | the script is compiled first; the template is compiled with the script's bindings and a source map; each map, the template's tagged, is appended as a comment to its code |
| Sfc.CompileStyled | src/index.js:43-59 | every style block is compiled in order; the CSS injection is empty without styles and otherwise wraps the prefixed CSS joined by newlines |
| Sfc.CompileAgree | src/compiler.worker.js:22-76 | two transforms that render source maps alike fail together with the same failure, and otherwise differ only in the injected CSS |
| Sfc.ModuleText | src/index.js:60-68 | definition of the module template literal, with the indentation as a parameter; its contract is proved by Sfc.ModuleLines, Sfc.ModuleShape and Sfc.ModuleLinesUnstyled |
| Sfc.ModuleLines | src/index.js:60-68 | the module's lines are its six fixed head lines, then the lines of the style injection, then the export line and the closing indentation |
| Sfc.ModuleShape | src/index.js:60-68 | the module imports the script and the render function, sets `__file` exactly when a file name is given and `__scopeId` exactly when a scope id is given, and ends by exporting the script |
| Sfc.CompiledShape | src/index.js:60-68 | for a compile's scope id, the `__scopeId` line is present exactly when some style is scoped, and names `data-v-<id>` |
| Sfc.ModuleLinesUnstyled | src/index.js:60-68 | without styles the module has nine lines and its style line is only the indentation |
| Sfc.CssOrder | src/index.js:54 | the prefixed CSS of style i starts at piece i's offset in the joined text, and the next piece starts one newline after it |
| Sfc.CompiledCss | src/index.js:45-57 | in a successful compile, the CSS of style block i, from compiling that block, appears after the prefix at piece i's offset in the injected text |
| Assembler.TransformVueSfc | src/index.js:9-70 | definition of the page's transform; its contract is proved by Assembler.TransformLines, Assembler.TransformUnstyled, Assembler.ScriptMapReadable, Assembler.TemplateMapReadable and Assembler.StylesAfterMountPrefix |
| Assembler.MapCommentReadable | src/index.js:28 | the map comment is the fixed data-URL head followed by a payload that decodes back to the JSON text |
| Assembler.ReadableAfter | src/index.js:28 | code followed by a map comment splits into the code, the comment head and the decodable payload |
| Assembler.ScriptMapReadable | src/index.js:27-29 | a script with a source map is its compiled code, the comment head, and a payload that decodes to `JSON.stringify(script.map)` |
| Assembler.TemplateMapReadable | src/index.js:39-42 | a template with a source map has its first source tagged `?template`; its code is the compiled code followed by the comment of the tagged map |
| Assembler.StylesAfterMountPrefix | src/index.js:53-57 | each style block's CSS appears in the injected text in source order, preceded once by the mount selector (`null` when no mount is given) and a space |
| Assembler.TransformLines | src/index.js:9-70 | the returned module imports the blob URLs of the compiled script and render code; `__file` appears exactly when a file name is given, `__scopeId` exactly when a style is scoped, and the module ends with the export |
| Assembler.TransformUnstyled | src/index.js:43-68 | a component without styles gives a nine-line module whose style line is blank |
| Worker.DataUriReadable | src/compiler.worker.js:3-17 | a data URI is `data:<mime>;base64,` followed by a payload that decodes back to the text |
| Worker.JsDataUriInert | src/compiler.worker.js:10-12 | a JavaScript data URI has no line break or single quote, so it fits in the quoted import |
| Worker.SourcemapComment | src/compiler.worker.js:18-20 | definition of `toSourcemapComment`; its contract is proved by Worker.SamePrefix, Worker.SameMapComment and Worker.DataUriReadable |
| Worker.SamePrefix | src/compiler.worker.js:18-20 | the comment head the worker assembles equals the page's literal head |
| Worker.SameMapComment | src/compiler.worker.js:18-20 | the worker's source-map comment equals, character for character, the page's comment |
| Worker.TransformVueSfc | src/compiler.worker.js:22-87 | definition of the worker's transform; its contract is proved by Worker.CompilesLikePage and Worker.TransformLines |
| Worker.CompilesLikePage | src/compiler.worker.js:22-76 | the worker compiles as the page does: same failures, same compiler calls and code; only the CSS prefix differs |
| Worker.TransformLines | src/compiler.worker.js:77-86 | the worker's module, line by line: data-URI imports, the render line, and `__file` and `__scopeId` under the same conditions as on the page |
| Worker.WorkerScope.OnMessage | src/compiler.worker.js:89-94 | a successful transform posts the data URI of the module; an exception posts nothing |
| Component.RewriteImages | src/index.js:100-110 | the replace loop yields the rewritten source and the image map of the specification functions |
| Component.ImageKeyInjective | src/index.js:107 | different match numbers give different image keys |
| Component.ImagesKeys | src/index.js:102-108 | the image map has exactly the keys `<imgId>_0` to `<imgId>_<n-1>` for n matches, so a repeated path still gets a fresh key |
| Component.ImageAt | src/index.js:106-108 | the k-th match's key maps to the data-URI module that exports its resolved URL |
| Component.RewrittenPiece | src/index.js:106-110 | each segment appears in the rewritten source, in order: plain text unchanged, the k-th match as `import <binding> from '<imgId>_k'; // <match>` |
| Component.SourcePiece | src/index.js:106-110 | the segments of the source cover it in consecutive pieces, segment i starting where the segments before it end; Component.RewrittenPiece gives the matching place in the rewritten text |
| Component.NoImagesUnchanged | src/index.js:106-110 | a segment list without image imports rewrites to the text it was split from |
| Component.OutcomeNoImages | src/index.js:93-112 | for a matcher that splits its input, an element whose source holds no image import has that source itself compiled: the fetched text with `src`, otherwise its inner HTML; it adds no image modules |
| Component.Outcome | src/index.js:86-115 | definition of what `makeComponent` returns, for a matcher that splits its input; its contract is proved by Component.OutcomeNoImages, Component.RewrittenPiece, Component.SourcePiece, Component.ImagesKeys and Component.ImageAt |
| Component.NormaliseName | src/index.js:87-91 | the module name always ends in `.vue`: unchanged if it already does, `.vue` appended otherwise, `null.vue` with no attribute |
| Component.Element.MakeComponent | src/index.js:86-115 | sets `module` to the normalised name; returns `[]` without a component name, and otherwise the module's blob URL, the raw name and the image map, or the compile failure |
| Page.Entries | src/index.js:125-138 | definition of `importMap` after the callbacks have run; its contract is proved by Page.LastWriterWins and Page.EntriesDomain |
| Page.Mounts | src/index.js:125-138 | definition of `mount` after the callbacks have run; its contract is proved by Page.MountsPrefix and Page.MountAt |
| Page.WrittenMerged | src/index.js:131-136 | merging a component's entries is its callback's steps: the URL under its name unless empty, then its images |
| Page.Collect | src/index.js:125-138 | the callback loop yields the specified import entries and mount list, and the first failure |
| Page.LastWriterWins | src/index.js:131-136 | the component that settled last among those setting a key gives that key's value |
| Page.EntriesDomain | src/index.js:131-136 | a key is in the import map exactly when some settled component set it |
| Page.MountsPrefix | src/index.js:128-130 | mount entries are only appended: an earlier prefix's list is a prefix of a later one |
| Page.MountAt | src/index.js:128-130 | a successful component with a `mount` attribute has its entry after those of the components that settled before it |
| Page.Bootstrap | src/index.js:161-171 | definition of the bootstrap module script; its contract is proved by Page.BootstrapLines and Page.BootstrapApp |
| Page.BootstrapLines | src/index.js:161-172 | the bootstrap script is the `createApp` import, the app lines and the indentation; it still holds the import when there are no apps |
| Page.BootstrapApp | src/index.js:164-170 | for entry i, line 3+2i imports `App<i>` from its module and line 4+2i mounts it on its selector |
| Page.AppNamesDistinct | src/index.js:165-166 | different indices give different app names |
| Page.Page.constructor | src/index.js:79-84 | the global map starts with `vue` mapped to the unpkg ESM build and with no scopes |
| Page.Page.Setup | src/index.js:119-173 | a component failure, an existing import map, or an unreadable or null `sfc-importmap` rejects and changes nothing; otherwise the imports are defaults, then external, then component entries, and the import map and the bootstrap script are inserted in that order |

## Left out

- Asynchrony and `Promise.all` interleaving: `setup` takes the components in the order their callbacks ran, and any order may be given.
- The DOM (`querySelectorAll`, attributes, `createElement`, `after` and `appendChild`): element attributes are a map, and inserted scripts are a list of `Insertion` values.
- `fetch`, `location.href` and `new URL(...)`: the fetched text, a string and a resolution function.
- Component.Outcome: a rejected `fetch(src)` or `res.text()` (`src/index.js:96`) and a TypeError from `new URL(...)` (`src/index.js:105`, `src/index.js:108`) are not modelled. The fetched text is given and the resolution is total, so `Outcome` and `Component.Element.MakeComponent` fail only in the compile.
- Worker.WorkerScope.OnMessage: runs each message to completion. The handler in `src/compiler.worker.js:89-94` is async and waits on `FileReader` for every data URI (lines 45, 58, 78-79 and 91). A later message can therefore run while an earlier one waits, and the replies can be posted out of order with nothing that tells which request each answers.
- `generateID`: `Math.random` is replaced by the `id` and `imgId` parameters.
- `getBlobURL`: a blob URL is a function of the code it holds. Revocation and the URL format are not modelled.
- `imageImportRegex`: the source is given already split into plain text and matches, so the regex itself is not modelled.
- `JSON.stringify`, and `JSON.parse` of the `sfc-importmap` script: stringification is a parameter, and a parse result is absent, malformed, `null`, or an object with optional `imports` and `scopes`.
- `@vue/compiler-sfc`: its four entry points are arbitrary functions, and the content of their results is not modelled.
- `FileReader` and `Blob` in the worker: a data URI is computed directly as Base 64 of the UTF-8 text. The replacement of lone surrogates that `Blob` performs is not modelled, because compiled code is a Dafny string of scalar values.
- In-place updates of `script.content`, `template.code` and `template.map.sources[0]`: modelled as record updates on values no other code shares.
- The worker's message format: `event.data` is taken as the three arguments, with no validation.
- Sfc.ModuleShape: its line facts, and those of Sfc.ModuleLines and Sfc.CompiledShape, are stated only when file names, ids and URLs contain no line break.
- Sfc.ModuleLinesUnstyled: its nine-line shape is stated only for URLs, file names and scope ids without a line break.
- Assembler.TransformLines: stated only for blob URLs, file names and ids without a line break. `URL.createObjectURL` ensures this for blob URLs; nothing ensures it for the file name and the id.
- Assembler.TransformUnstyled: its nine-line shape is stated only for blob URLs, file names and ids without a line break.
- Worker.TransformLines: stated only for file names and ids without a line break.
- Page.BootstrapLines: its lines, and those of Page.BootstrapApp, are stated only for module names and selectors without a line break.
