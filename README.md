# Vue language server request router

A model of `createVueLanguageServer` from the TypeScript plugin for Vue single-file components. The server receives language-service requests addressed to a `.vue` file. For each request it does three things:

- It checks the request against the plugin's feature configuration (`isFeatureEnabled`).
- It resolves the file and offset to one of the file's virtual documents: `script`, `scriptSetup`, `_render` (the compiled template) or `_module`.
- It sends the request to the template service or the script service. Results from several blocks are concatenated in a fixed order.

The model has these modules:

- `Wrappers`: `Option`, standing for `undefined`.
- `Strings`: JavaScript's `replace` on paths with a string pattern, and the first-occurrence search it runs.
- `Features`: the configuration values and the feature gate.
- `Documents`: the virtual-document container and the lookups of the `helpers` object. Every lookup is a function the host supplies.
- `Services`: the shared capability record of the two services, and opaque result shapes.
- `VueServer`: routing, the diagnostics aggregation, organize-imports, the point requests, find-rename-locations and the refactor range check.
- `FileRename`: the file-rename cascade with its visited set.

The server is a value holding the template service, the script service and the helpers. Every feature-gated operation takes the feature configuration as a parameter. This matches the source, which reads `context.config` afresh on every call. The diagnostics operations, `findRenameLocations` and `getEditsForFileRename` build their results step by step, so they are methods. The diagnostics method loops over the selectors `script` and `_render`. The file-rename method pushes the primary edits and then walks them in `PushCascadeEdits`, which carries the visited set. Its loop body asks `RenderFor` for each edit's render document: the `isVirtualFile`/`isVueFile` test followed by `getVueDocument(...)?.getDocument('_render')`. The two looping methods are proved against specification functions (`CollectDiagnostics`, `Discovered`, `CascadeEdits`). The lemmas about those functions state the ordering and dedup properties.

Two behaviours of the code that differ from what a reader might expect:

- `getDefinitionAndBoundSpan` resolves a single position. It has no range check and no feature gate.
- `findRenameLocations` returns `undefined` when no block is at the position. It returns `[]` when renaming is disabled, for a block that is neither `template` nor `script`, and for a `template` or `script` block whose service answers `undefined`.

## Model

| member | source | states |
|---|---|---|
| `Strings.IndexOfFrom` | packages/typescript-plugin-vue/src/servers/vue.ts:222 | the index found is an occurrence of the pattern with no earlier occurrence at or after the start; `None` only when there is no occurrence |
| `Strings.ReplaceFirst` | packages/typescript-plugin-vue/src/servers/vue.ts:222 | the literal replacement: a string without the pattern is returned unchanged; otherwise the result keeps the text before the first occurrence, puts the new text in its place and keeps the text after it, so its length changes by exactly the difference of the two lengths |
| `Strings.ReplaceFirstAt` | packages/typescript-plugin-vue/src/servers/vue.ts:222 | the literal replacement happens at the first occurrence of the pattern, keeping the text before and after it |
| `Strings.ReplaceFirstAbsent` | packages/typescript-plugin-vue/src/servers/vue.ts:222 | a path without the old file path is left unchanged |
| `Strings.ReplacePrefix` | packages/typescript-plugin-vue/src/servers/vue.ts:222 | a path that starts with the old file path keeps its suffix under the new path |
| `Strings.ExpandReplacement` | packages/typescript-plugin-vue/src/servers/vue.ts:222 | a replacement without `$` expands to itself |
| `Strings.ReplaceFirstJs` | packages/typescript-plugin-vue/src/servers/vue.ts:222 | JavaScript `replace` with a string pattern returns a string without the pattern unchanged; the lemmas below relate it to the literal replacement |
| `Strings.ReplaceFirstJsAbsent` | packages/typescript-plugin-vue/src/servers/vue.ts:222 | JavaScript `replace` leaves a string without the pattern unchanged |
| `Strings.ReplaceFirstJsWithoutDollar` | packages/typescript-plugin-vue/src/servers/vue.ts:222 | JavaScript `replace` agrees with the literal replacement when the new text has no `$` |
| `Strings.DollarInNewPathIsExpanded` | packages/typescript-plugin-vue/src/servers/vue.ts:222 | renaming `a.vue` to `$$.vue` moves `a.vue.ts` to `$.vue.ts` as written, where the literal replacement gives `$$.vue.ts` |
| `Features.Lookup` | packages/typescript-plugin-vue/src/servers/vue.ts:24 | an unset feature reads as `undefined` |
| `Features.IsFeatureEnabled` | packages/typescript-plugin-vue/src/servers/vue.ts:20-29 | an array-valued feature is enabled exactly when one of its entries equals the value asked for; any other value must be strictly equal to it |
| `Features.IsEnabled` | packages/typescript-plugin-vue/src/servers/vue.ts:22-28 | with the default `checkFor = true`, a feature is enabled exactly when it is `true` or an array holding `true` |
| `Features.UnsetFeatureIsDisabled` | packages/typescript-plugin-vue/src/servers/vue.ts:24-28 | a feature missing from the configuration is disabled for every value |
| `Features.ScalarFeatureEnabledForOneValue` | packages/typescript-plugin-vue/src/servers/vue.ts:28 | a scalar feature is enabled for at most one value |
| `Features.AddingOptionEnablesOnlyIt` | packages/typescript-plugin-vue/src/servers/vue.ts:26-27 | adding an option to an array-valued feature enables that option and leaves every other option as it was |
| `VueServer.Route` | packages/typescript-plugin-vue/src/servers/vue.ts:53 | a document is routed to the template service if and only if it is a render-function document, and to the script service otherwise |
| `VueServer.Choose` | packages/typescript-plugin-vue/src/servers/vue.ts:31-54 | the chosen service is the template service for render-function documents and the script service for all others |
| `VueServer.BlockDiagnostics` | packages/typescript-plugin-vue/src/servers/vue.ts:67-76 | an absent block contributes no diagnostics |
| `VueServer.CollectDiagnostics` | packages/typescript-plugin-vue/src/servers/vue.ts:66-75 | no selectors give no diagnostics, and a single selector gives exactly that block's contribution |
| `VueServer.CollectDiagnosticsStep` | packages/typescript-plugin-vue/src/servers/vue.ts:66-74 | one iteration of the `forEach` appends the next block's contribution after those of the earlier selectors |
| `VueServer.CollectDiagnosticsAppend` | packages/typescript-plugin-vue/src/servers/vue.ts:67-76 | aggregating over consecutive selector lists concatenates their results, so the output is in selector order and never interleaved |
| `VueServer.CollectDiagnosticsAbsent` | packages/typescript-plugin-vue/src/servers/vue.ts:68-70 | selectors whose blocks are all absent yield no diagnostics |
| `VueServer.GetDiagnostics` | packages/typescript-plugin-vue/src/servers/vue.ts:59-124 | semantic, suggestion and syntactic diagnostics are `[]` when that category is not enabled or `getVueDocument` finds no container for the file; otherwise they are the `script` document's diagnostics followed by the `_render` document's, each from its routed service |
| `VueServer.ImportsDocument` | packages/typescript-plugin-vue/src/servers/vue.ts:131-132 | organize-imports works on `script` when present, else on `scriptSetup`, else on nothing |
| `VueServer.OrganizeImports` | packages/typescript-plugin-vue/src/servers/vue.ts:126-143 | `[]` when the feature is off, `getVueDocument` finds no container for the file or it has no script block; otherwise the script service's result on `script`, falling back to `scriptSetup` |
| `VueServer.OrganizeImportsIgnoresTemplate` | packages/typescript-plugin-vue/src/servers/vue.ts:134-138 | organize-imports does not depend on the template service or on routing |
| `VueServer.GetQuickInfoAtPosition` | packages/typescript-plugin-vue/src/servers/vue.ts:145-155 | `undefined` when quick info is off or no document is at the position; otherwise the routed service's answer for that document |
| `VueServer.GetRenameInfo` | packages/typescript-plugin-vue/src/servers/vue.ts:157-174 | refuses with "Rename feature disabled." when renaming is off and with "Cannot find this Vue file." when no document is at the position; otherwise the routed service's answer |
| `VueServer.RenameRefusalsIgnoreServices` | packages/typescript-plugin-vue/src/servers/vue.ts:158-171 | with renaming off or no document at the position, the answer is a refusal that does not depend on the template or script service |
| `VueServer.GetDefinitionAndBoundSpan` | packages/typescript-plugin-vue/src/servers/vue.ts:305-313 | not feature-gated: the routed service's answer when a document is at the position, `undefined` otherwise |
| `VueServer.FindRenameLocations` | packages/typescript-plugin-vue/src/servers/vue.ts:176-205 | `[]` when renaming is off; `undefined` with no `.vue` document or no block at the position; a `template` block gives only the template service's locations on `_render`, a `script` block only the script service's on `script`, any other block `[]` |
| `VueServer.CoherentDocument` | packages/typescript-plugin-vue/src/servers/vue.ts:254-263 | a document is returned exactly when both ends of the range resolve, to the same document, and it is that document |
| `VueServer.PositionIsCoherent` | packages/typescript-plugin-vue/src/servers/vue.ts:254-261 | a bare number resolves both ends to the document at that position |
| `VueServer.GetApplicableRefactors` | packages/typescript-plugin-vue/src/servers/vue.ts:251-272 | `[]` when refactoring is off or the two ends of the range do not resolve to the same document (positions between them are not checked); otherwise the routed service's refactors for the document both ends resolve to |
| `VueServer.GetEditsForRefactor` | packages/typescript-plugin-vue/src/servers/vue.ts:274-303 | `undefined` when refactoring is off or the two ends of the range do not resolve to the same document (positions between them are not checked); otherwise the routed service's edits for the document both ends resolve to |
| `VueServer.StraddlingRangeHasNoRefactors` | packages/typescript-plugin-vue/src/servers/vue.ts:251-303 | a range whose ends resolve to different documents gets no refactors and no refactor edits |
| `FileRename.RenderFor` | packages/typescript-plugin-vue/src/servers/vue.ts:230-234 | an edit triggers a cascade exactly when its file is virtual or `.vue` and its container has a `_render` document, which is the one used |
| `FileRename.PrimaryEdits` | packages/typescript-plugin-vue/src/servers/vue.ts:219-225 | when the module path does not contain the old file path, `replace` leaves it unchanged and the script service is asked to move the module path to itself |
| `FileRename.Discovered` | packages/typescript-plugin-vue/src/servers/vue.ts:229-245 | no primary edits lead to no render paths; the lemmas below state its bound, distinctness, soundness, completeness and growth |
| `FileRename.DiscoveredIsBounded` | packages/typescript-plugin-vue/src/servers/vue.ts:229-245 | each primary edit leads to at most one visited render path |
| `FileRename.CascadeEdits` | packages/typescript-plugin-vue/src/servers/vue.ts:236-242 | no render paths give no edits, and a single render path gives exactly the template service's `getEditsForFileRenameIn(render, old, new)` |
| `FileRename.DiscoveredIsDistinct` | packages/typescript-plugin-vue/src/servers/vue.ts:216-236 | the visited render paths are pairwise distinct, so no render document is processed twice |
| `FileRename.DiscoveredIsSound` | packages/typescript-plugin-vue/src/servers/vue.ts:229-245 | every visited render path is the render document of some primary edit |
| `FileRename.DiscoveredIsComplete` | packages/typescript-plugin-vue/src/servers/vue.ts:229-245 | every primary edit that leads to a render document gets that document visited |
| `FileRename.DiscoveredGrowsAtTheEnd` | packages/typescript-plugin-vue/src/servers/vue.ts:229-245 | walking more edits only appends render paths, so each path keeps the place of its first discovery |
| `FileRename.RepeatedRendersAddNothing` | packages/typescript-plugin-vue/src/servers/vue.ts:234-235 | further edits that only reach render documents already visited add nothing, however many there are |
| `FileRename.PrimaryEditsMoveModuleUnderNewPath` | packages/typescript-plugin-vue/src/servers/vue.ts:219-225 | for a new path without `$`, the script service is asked to move the module path `oldFilePath + rest` to `newFilePath + rest` |
| `FileRename.WalkStep` | packages/typescript-plugin-vue/src/servers/vue.ts:229-243 | one iteration adds the edit's render path, and the template service's edits for it, exactly when the edit leads to a render document not yet visited; otherwise the walk is unchanged |
| `FileRename.PushCascadeEdits` | packages/typescript-plugin-vue/src/servers/vue.ts:229-245 | after the walk, the edits already pushed are followed by the template service's edits for each render path in `Discovered` order, nothing else |
| `FileRename.GetEditsForFileRename` | packages/typescript-plugin-vue/src/servers/vue.ts:207-249 | `[]` when renaming is off or `getVueDocument` finds no container for the old path; otherwise the script service's edits for the `_module` path, moved to the path JavaScript `replace(oldFilePath, newFilePath)` makes of it (`$` patterns in the new path expanded), followed by the template service's `getEditsForFileRenameIn(render, old, new)` for each distinct render document in order of first discovery |

## Findings

| source | as written | input that shows it | evidently intended | confidence | as-written member | corrected member |
|---|---|---|---|---|---|---|
| packages/typescript-plugin-vue/src/servers/vue.ts:222 | `component.fsPath.replace(oldFilePath, newFilePath)` is JavaScript `replace` with a string pattern, which still expands `$$`, `$&`, `` $` `` and `$'` in the new path | rename `a.vue` (module path `a.vue.ts`) to `$$.vue`: the script service is asked to move `a.vue.ts` to `$.vue.ts` | the module path under the new path, taken literally: `$$.vue.ts` | medium, not executed | `Strings.ReplaceFirstJs` (used by `FileRename.GetEditsForFileRename`), `Strings.DollarInNewPathIsExpanded` | `Strings.ReplaceFirstAt`, `Strings.ReplacePrefix`, `FileRename.PrimaryEditsMoveModuleUnderNewPath` (`FileRename.GetEditsForFileRename` keeps the as-written `replace`; the corrected behaviour is what it does for every new path without `$`) |

## Left out

- The tracing in `choose` (vue.ts:32-51) is left out. It reads the script info, the snapshot and the `_internal` document only to log them.
- `wrapInTrace` and the `noop` defaults are left out. Operations the server does not override are inert and are not modelled.
- The template service (`createTemplateLanguageServer`) and the TypeScript script service are not part of this model. Each capability is an opaque total function.
- Provider failures are left out. A service that throws would propagate its exception unchanged, but the model's services always return.
- Formatting options, user preferences, rename options and the other fields of the organize-imports `scope` are left out. The router passes them through unchanged.
- The lookups `getVueDocument`, `getDocumentAt`, `blockAt`, `getDocument`, `getDocumentFileName`, `isRenderFunctionDocument`, `isVirtualFile`, `isVueFile` and `isNumber` are abstract. They come from the virtual-document library, which is not part of this model.
- The `_module` document is modelled as always present. The source reads its `fsPath` without a check.
- `getDocumentFileName` is modelled as total. The source asserts a non-null result with `!`.
- Object identity (`document === document2`) is modelled as equality of virtual documents. A virtual document is identified by its synthetic path.
- Which providers are invoked is not recorded. "A disabled operation calls no provider" is captured only by its result being a constant that mentions no provider.
- Features.IsFeatureEnabled: `checkFor` is limited to a boolean or a string, as its declared type says. For those values, JavaScript's `includes` and `===` both amount to equality.
- Strings.ExpandReplacement: `$n` and `$<name>` are kept literally. A string pattern has no capture groups, so JavaScript keeps them literally too.
- Idempotence of the read-only operations holds by construction. Every operation is a function of its arguments, or a method whose result is fixed by its postcondition.
