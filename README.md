# Website builder: a Dafny model of the editor state and the static export

This project models the core of a small drag-and-drop website builder. It covers four parts:

- **The page builder** (`Builder`). The page's editing state is a live component list, a title, and a linear history of snapshots with a cursor. Every edit goes through one commit path. That path prunes the redo branch, pushes the new list, and moves the cursor to the end. The model also covers dropping a new component, shallow-merging a patch into every component whose id is strictly equal to the given one, and undo and redo.
- **The canvas** (`Canvas`). The canvas sends inline text edits up as a `{content}` patch. While a component is being dragged over another one, it moves the dragged component to the hovered slot with two splices. It commits that order and then tracks the dragged component at its new index.
- **The settings panel** (`ComponentSettings`). Each control builds one sparse patch. Nested `style`, `action` and `animation` patches spread the component's current nested object and override one key. The panel shows each setting with a fallback value. It also offers a fixed list of action choices for buttons and images.
- **The server's website controller** (`WebsiteController`). It accepts an update only when every key of the body is on the allow-list, and then assigns each field. It builds the export file name from the title. It compiles a website into one standalone HTML page: per-component markup, one CSS rule block per component, and a click handler per scroll-action component.

JavaScript values are modelled in `Js`. A value is null, a boolean, a number, a string, an array or an object. An object is its ordered entry list: a lookup finds the first entry with the key, and assigning a key replaces its entry in place or appends a new one. Object spread (`{...a, ...b}`) is a fold of that assignment. `undefined` is `None` of an `Option`.

The module also defines JavaScript truthiness, `||`, optional chaining, `===` and template interpolation. On the outputs of `===`, objects and arrays are never equal, because their identity is not modelled.

Generated text is built from template pieces by `Concat`. The lemmas state which pieces occur in the result (`Occurs`).

Inputs that the program reads from the world become parameters:

- `Date.now()` is the natural number `now`.
- HTML input values that `parseInt` parses are integers.
- A website document loaded from the store is a `Website` object passed in.

## Model

| member | source | states |
|---|---|---|
| Builder.Builder.constructor | client/src/pages/Builder.jsx:8-11 | A new page has no components, an empty title, a history holding one empty snapshot, and the cursor on that snapshot |
| Builder.Builder.UpdateComponents | client/src/pages/Builder.jsx:14-20 | A commit keeps the history up to and including the cursor, drops every redo snapshot, appends the new list and puts the cursor on it; the live list is the committed one and stays the snapshot under the cursor, and every snapshot keeps components with unique keys |
| Builder.WithId | client/src/pages/Builder.jsx:23 | A dropped component reads the drop time under `id` and the payload's value under every other key, with no duplicate keys |
| Builder.Builder.HandleDrop | client/src/pages/Builder.jsx:22-25 | A drop appends exactly one component to the end of the list: the old components keep their positions, and the new last one is the payload stamped with the drop time; the result is committed |
| Builder.Merge | client/src/pages/Builder.jsx:34 | The shallow merge reads the patch's value for every key the patch has and the component's value for every other key; its keys are unique |
| Builder.UpdateMatching | client/src/pages/Builder.jsx:33-35 | The list keeps its length; components whose id is not strictly equal to the target are untouched; matching ones are merged with the patch; with no match the list is unchanged |
| Builder.Builder.HandleUpdateComponent | client/src/pages/Builder.jsx:27-37 | A replacement list is committed as is; otherwise the patched list is committed, even when no id matched, so every call adds one history step; in the committed list each matching component reads the patch under the patch's keys and its old value under every other key |
| Builder.Builder.HandleUndo | client/src/pages/Builder.jsx:57-62 | At the first snapshot nothing changes; otherwise the cursor moves back one step and the live list becomes that snapshot; the history is never changed |
| Builder.Builder.HandleRedo | client/src/pages/Builder.jsx:64-69 | At the last snapshot nothing changes; otherwise the cursor moves forward one step and the live list becomes that snapshot; the history is never changed |
| Builder.Builder.SetTitle | client/src/pages/Builder.jsx:80 | The title is set and is not part of the history |
| Builder.PrunedRedo | client/src/pages/Builder.jsx:16-19 | Committing a, committing b, then undoing gives back a; a later commit of c discards b, so the next redo changes nothing and the history is exactly [[], a, c] |
| Js.GetSpread | client/src/pages/Builder.jsx:34 | After spreading p into o, a key reads p's value if p has it and o's value otherwise |
| Js.GetPut | client/src/components/ComponentSettings.jsx:22 | Assigning k reads the new value at k and leaves every other key's value as it was |
| Js.ParseNatToString | server/controllers/websiteController.js:122 | Reading back the decimal digits of a timestamp gives the timestamp, so distinct times give distinct file-name suffixes (Js.NatToStringInjective) |
| Canvas.Move | client/src/components/Canvas.jsx:36-39 | Taking out the element at `from` and inserting it at `to` keeps the length and puts the dragged element at `to` |
| Canvas.MoveAt | client/src/components/Canvas.jsx:38-39 | Every position of a move is characterised: the dragged element lands at `to`, the elements between the two slots shift one place towards `from`, and all others stay |
| Canvas.MoveIsPermutation | client/src/components/Canvas.jsx:36-39 | A move neither loses nor duplicates a component: the multiset of components is unchanged |
| Canvas.MoveBack | client/src/components/Canvas.jsx:38-39 | Moving back from `to` to `from` restores the original order |
| Canvas.MoveToItself | client/src/components/Canvas.jsx:34 | A move onto its own slot is the identity, so the early return there skips only a commit that would not change the order |
| Canvas.Canvas.constructor | client/src/components/Canvas.jsx:6 | A canvas starts with no drag in progress |
| Canvas.Canvas.HandleTextEdit | client/src/components/Canvas.jsx:24-26 | An inline edit sends a `{content}`-only patch for the component's id, so the page merges the new content into the matching components and commits |
| Canvas.Canvas.HandleDragStart | client/src/components/Canvas.jsx:28-30 | The drag index becomes the dragged component's index |
| Canvas.Canvas.HandleDragOverComponent | client/src/components/Canvas.jsx:32-43 | With no drag, or over the dragged component's own slot, nothing changes and nothing is committed; otherwise the moved order is committed as one history step, and the drag index follows the dragged component to the hovered slot |
| Canvas.Canvas.HandleDragEnd | client/src/components/Canvas.jsx:45-47 | The drag index is cleared |
| Canvas.DragThereAndBack | client/src/components/Canvas.jsx:32-43 | On [a, b, c], dragging from 0 over 2 gives [b, c, a]; a further drag-over at 0 restores [a, b, c], because the drag index followed the component |
| ComponentSettings.ActionChoices | client/src/components/ComponentSettings.jsx:3-15 | Buttons offer link, scroll, modal and form actions; images offer lightbox, link and gallery, in that order |
| ComponentSettings.MergeNestedPatch | client/src/components/ComponentSettings.jsx:20-24 | Once merged by the page, a nested patch changes exactly one nested key: every other top-level key and every other nested key reads as before, and the nested key order is the old one with the key appended if it is new |
| ComponentSettings.MergeSingleKey | client/src/components/ComponentSettings.jsx:42 | Once merged by the page, a one-key patch sets that key and leaves every other key as it was |
| ComponentSettings.HandleStyleChange | client/src/components/ComponentSettings.jsx:20-24 | A style edit targets the component's id, patches only `style`, and after the merge changes exactly the one style property |
| ComponentSettings.HandleActionChange | client/src/components/ComponentSettings.jsx:26-30 | A new action type patches only `action` and changes only its `type`; the URL and other action keys stay |
| ComponentSettings.HandleUrlChange | client/src/components/ComponentSettings.jsx:116 | A URL edit patches only `action` and changes only its `url`; the action type stays |
| ComponentSettings.HandleAnimationTypeChange | client/src/components/ComponentSettings.jsx:216 | An animation type patches only `animation` and changes only its `type` |
| ComponentSettings.HandleDurationChange | client/src/components/ComponentSettings.jsx:235 | A duration edit patches only `animation` and changes only its `duration`, to the given number |
| ComponentSettings.HandleDelayChange | client/src/components/ComponentSettings.jsx:247 | A delay edit patches only `animation` and changes only its `delay`, to the given number |
| ComponentSettings.HandleContentChange | client/src/components/ComponentSettings.jsx:42 | A text edit patches only `content` and, once merged, changes only that key |
| ComponentSettings.HandleSrcChange | client/src/components/ComponentSettings.jsx:131 | An image URL edit patches only `src` and, once merged, changes only that key |
| ComponentSettings.Shown | client/src/components/ComponentSettings.jsx:101 | A control shows the fallback exactly when the nested value is missing or falsy, and otherwise the value stored under the nested key |
| ComponentSettings.ShownDefaults | client/src/components/ComponentSettings.jsx:101-247 | With no action and no animation, the action select shows `link` for a button and `lightbox` for an image, the animation select shows `none`, duration 500, delay 0, no URL field, yet the timing fields are offered |
| WebsiteController.IsValidOperation | server/controllers/websiteController.js:53-55 | An update is valid exactly when every key of the body is one of title, description, components and isPublished; an empty body is valid |
| WebsiteController.Website.SetField | server/controllers/websiteController.js:71 | Assigning one name sets that updatable field and no other |
| WebsiteController.Website.ApplyUpdates | server/controllers/websiteController.js:53-71 | A body with a key outside the allow-list is rejected and changes nothing; an accepted body sets each field it lists to its value and leaves the unlisted fields, the owner, the published URL and the timestamps unchanged |
| WebsiteController.ToLowerCase | server/controllers/websiteController.js:122 | Lower-casing keeps the length, maps each character to its lower-case form, leaves no upper-case ASCII letter and keeps every whitespace character in place |
| WebsiteController.CollapseRuns | server/controllers/websiteController.js:122 | Replacing each whitespace run by `-` never lengthens the text, and gives empty text exactly for empty text |
| WebsiteController.CollapsedHasNone | server/controllers/websiteController.js:122 | After each whitespace run is replaced by `-`, no whitespace remains |
| WebsiteController.CollapseKeepsRunFree | server/controllers/websiteController.js:122 | Text without whitespace is unchanged by the replacement |
| WebsiteController.CollapseRun | server/controllers/websiteController.js:122 | A whole whitespace run between two non-whitespace characters becomes exactly one `-`, and each side is treated independently |
| WebsiteController.ExportFileName | server/controllers/websiteController.js:122 | The file name is the lower-cased title with each whitespace run replaced by one `-`, then `-`, the decimal timestamp and `.html`; it holds no whitespace |
| WebsiteController.FileNameOfOneWord | server/controllers/websiteController.js:122 | A title without whitespace appears lower-cased and otherwise unchanged in the file name |
| WebsiteController.FieldOr | server/controllers/websiteController.js:208 | An attribute is interpolated when truthy, and the empty or default text replaces it otherwise |
| WebsiteController.HasTypeIsStrictEquality | server/controllers/websiteController.js:206 | A case of the type switch is taken exactly when the type is strictly equal to that case's string |
| WebsiteController.GenerateComponentHtml | server/controllers/websiteController.js:203-218 | Text, image, button and input components become their element with the `component-<id>` class attribute and their attributes or defaults; every other type gives empty markup, and a non-empty markup always carries the class |
| WebsiteController.HeaderIsNotExported | server/controllers/websiteController.js:215-216 | A header gives no markup and no script, but still gets its `.component-<id>` rule block |
| WebsiteController.EntryDeclarations | server/controllers/websiteController.js:168-170 | No style entries give no declarations, one entry gives `key: value`, and every entry's `key: value` occurs in the result |
| WebsiteController.EntryDeclarationsAppend | server/controllers/websiteController.js:168-170 | The declarations of two runs of entries are joined by `; `, so entries render in their own order, separated by `; ` |
| WebsiteController.Declarations | server/controllers/websiteController.js:168-170 | A missing or falsy style gives no declarations; a style object gives the declarations of its own entries |
| WebsiteController.AnimationDeclaration | server/controllers/websiteController.js:176 | The animation shorthand is the type, then the duration or `1s` when the duration is unset or falsy, then the timing or `ease` when the timing is unset or falsy, each fallback applying on its own |
| WebsiteController.PanelAnimationDeclaration | server/controllers/websiteController.js:172-176 | An animation as the settings panel leaves it (a type other than `none` and a positive duration, no timing) is animated and renders as `animation: <type> <ms> ease;` |
| WebsiteController.GenerateStyle | server/controllers/websiteController.js:167-183 | A rule block opens with the component's class selector and holds its declarations; the animation line is added exactly when the component has an animation whose type is not strictly `none` |
| WebsiteController.GenerateStyles | server/controllers/websiteController.js:166-187 | The style sheet has one rule block per component: no components give an empty sheet, one gives its block, and every component's block occurs |
| WebsiteController.GenerateStylesAppend | server/controllers/websiteController.js:184 | Compiling two lists one after the other gives their sheets joined by a newline, so the blocks follow component order |
| WebsiteController.GenerateScript | server/controllers/websiteController.js:190-197 | A component gets a script exactly when its action type is strictly `scroll`; that script holds a click listener on the component's id that scrolls to the target |
| WebsiteController.GenerateScripts | server/controllers/websiteController.js:189-201 | The scripts are one entry per component joined by newlines, and every scroll component's handler occurs |
| WebsiteController.GenerateScriptsAppend | server/controllers/websiteController.js:198 | Compiling two lists one after the other gives their scripts joined by a newline, in component order |
| WebsiteController.ScrollButtonScript | server/controllers/websiteController.js:191-195 | A button with a scroll action to `sec1` gets a script that listens on the element whose id is the bare component id and scrolls to `sec1` |
| WebsiteController.ScrollButtonMarkup | server/controllers/websiteController.js:204-212 | The same button's markup is `<button class="component-<id>">content</button>`: its only attribute is the class, so it has no id attribute for the script to find |
| WebsiteController.ComponentMarkup | server/controllers/websiteController.js:157 | The markup holds every component's element, in a newline-joined list |
| WebsiteController.ComponentMarkupAppend | server/controllers/websiteController.js:157 | Compiling two lists one after the other gives their markups joined by a newline, in component order |
| WebsiteController.GenerateHtml | server/controllers/websiteController.js:139-164 | The page holds the title element, a style element with every rule block, a container with every component's markup, and a script element with every handler |
| WebsiteController.ExportContainsEveryComponent | server/controllers/websiteController.js:139-164 | Every component's markup, rule block and script occurs in the exported page |

## Left out

- The database and the HTTP layer are not modelled: Mongoose queries and casting, `save`, status codes, the 404 and 500 responses, and authentication. `WebsiteController.Website.ApplyUpdates` stands for the part of `updateWebsite` between the allow-list check and `save`, applied to an already-loaded document.
- `Website` fields hold raw values. Schema casting, the `id` virtual and timestamps maintained by the store are left out.
- Writing the export file and downloading it are left out (file-system I/O). The file name is modelled.
- Only the calls to `Date.now()` are time. The value becomes the `now` parameter.
- `handleSave` (a network call with toasts) and the JSX rendering of every component are left out, and so is the palette.
- The canvas's `handleDrop` is left out. It only parses the drag payload with `JSON.parse` and forwards it; `Builder.Builder.HandleDrop` takes the parsed value.
- The `isDragging` and `editingId` flags only affect rendering, so they are left out.
- React state updates are modelled as applied at once. Batching and stale closures are not modelled.
- `ComponentSettings.HandleDurationChange`: takes the integer that `parseInt` yields. `NaN` from non-numeric text is not modelled.
- `ComponentSettings.HandleDelayChange`: likewise takes an integer and does not model `NaN`.
- Numbers are integers. The program stores ids, timestamps, millisecond counts and the pixel values of the padding and corner-radius sliders, all whole numbers. Floating point is not modelled.
- `WebsiteController.ToLowerCase`: lower-cases ASCII letters only. Unicode case mapping is not modelled.
- Strings index by code point rather than by UTF-16 code unit.
- JavaScript lists integer-like object keys first. This order is not modelled; entries keep insertion order.
- `Canvas.Canvas.HandleDragOverComponent`: requires the hovered index and the drag index to be inside the list. A stale drag index past the end, which the code would splice as `undefined`, is not modelled.
- A drag-over from the canvas calls `onUpdateComponent(null, null, list)`. This is modelled as a call with a replacement list, ids and patch ignored.
- The display-only fallbacks of the style tab follow the pattern of `ComponentSettings.Shown` and are not modelled one by one.
- `Builder.Builder.UpdateComponents`: requires the committed components to have unique keys, so that the page invariant can carry that fact for the merges. Every list the program commits is built from object literals, spreads and reorders of earlier lists, and none of these yields a duplicate key.
- `Builder.Builder.HandleUpdateComponent`: likewise requires a replacement list to have components with unique keys. The canvas passes a reorder of the live list, which has them.

## Notes on the source

Two behaviours of the export look unintended. The model reproduces both as written, because the source does not say what was meant instead.

- A header or divider component, and any type other than text, image, button and input, produces no markup in the exported page (server/controllers/websiteController.js:215-216). It still gets its rule block. `WebsiteController.HeaderIsNotExported` states this for a header.
- A scroll handler looks its button up with `getElementById` and the bare component id (server/controllers/websiteController.js:193). The exported markup carries only `class="component-<id>"` (server/controllers/websiteController.js:204), so in a browser the lookup would find no element. `WebsiteController.ScrollButtonMarkup` and `WebsiteController.ScrollButtonScript` state the two halves for one scroll button.
