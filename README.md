# MarkGEN navigation dropdown and page, in Dafny

This project models two parts of MarkGEN, a generator that renders markdown pages and a folder/file navigation sidebar into static HTML.

- **The navigation dropdown** (`src/components/dropdown/index.ts`). The builder turns a directory descriptor (a path, sub-directories and files) into a tree of collapsible dropdowns. When `compilationOptions` is on, it skips empty sub-directories. Each dropdown is wired to a fold/unfold toggle. There is also a setter for a dropdown's label.
- **The page** (`src/containers/page/index.ts`). A page has an ordered list of top-level children, a body of compiled elements, a style buffer that only grows, and an ordered sequence of script fragments. `serialize` writes the page to a file named after its title.

Files:

- `components.dfy`:
  - module `Configuration`: the configuration flags;
  - module `Components`: the component tree as a value datatype. The folder header and file leaf are opaque kinds. `FileLeaves` gives a tree's file leaves in document order.
- `dropdown.dfy`, module `Dropdown`:
  - the seed id;
  - the emptiness test and the pruned descriptor;
  - `Tree`/`SubTrees`, the specification of the builder;
  - the method `CreateDropdownFromDirectory`, written with the two loops of the source and proved equal to `Tree`;
  - the shape predicate `IsDropdown`;
  - `Outline`, which reads a built tree back into a descriptor;
  - the toggle `Click` and the label setter.
- `pages.dfy`, module `Pages`: the class `Page`. The external collaborators are the function fields of `Env`.

Points of the builder and the page that are easy to get wrong:

- **Files before sub-dropdowns.** The files container is the first child of the folders container (`src/components/dropdown/index.ts:46-47`), and child dropdowns are appended after it (`src/components/dropdown/index.ts:81`). So a dropdown's file leaves come before its child dropdowns in document order.
- **One level of pruning.** The emptiness test runs on each sub-directory's *original* descriptor (`src/components/dropdown/index.ts:78`). A sub-directory that only holds an empty directory is therefore kept, and it shows up as an empty branch (`NestedEmptyDirectorySurvives`).
- **Script wrapping.** A script fragment is the code wrapped in a plain block, `{` + code + `}` (`src/containers/page/index.ts:111`). It is not an immediately-invoked function.

## Model

| member | source | states |
|---|---|---|
| `Dropdown.Split` | src/components/dropdown/index.ts:75 | `split('/')` always yields at least one part, no part contains the separator, and joining the parts with the separator gives back the input |
| `Dropdown.SeedReplacesSlashes` | src/components/dropdown/index.ts:75 | `path.split('/').join('-')` equals the path with every '/' replaced by '-': same length, no '/' left |
| `Dropdown.TreeIds` | src/components/dropdown/index.ts:38-43 | a built dropdown's header is named by the slash-free seed; its id is the seed followed by its drawn suffix; its container's id is that id + "-container" |
| `Dropdown.IsDirectoryEmpty` | src/components/dropdown/index.ts:56-62 | a directory only counts as empty when `compilationOptions` is on, and then it holds no file at any depth |
| `Dropdown.Layout` | src/components/dropdown/index.ts:38-53 | the constructor's layout: children [header, folders container]; id = seed + suffix; the header is named by the seed; the container's id is the id + "-container" and it starts hidden |
| `Dropdown.LayoutShape` | src/components/dropdown/index.ts:35-54 | the layout is a dropdown once its files container holds file leaves at its depth and its folders container holds dropdowns one level deeper; its file leaves are the files container's, then the child dropdowns' |
| `Dropdown.KeptExactly` | src/components/dropdown/index.ts:56-62 | a sub-directory is descended into exactly when it is not empty, i.e. unless pruning is on and it has no sub-directories and no files |
| `Dropdown.NothingPrunedWhenOff` | src/components/dropdown/index.ts:77-82 | with `compilationOptions` off the pruned descriptor is the input itself: nothing is ever dropped |
| `Dropdown.PrunedAllIsKept` | src/components/dropdown/index.ts:77-82 | the pruned sub-directory list has one entry per kept sub-directory, in input order, each pruned in turn |
| `Dropdown.NestedEmptyDirectorySurvives` | src/components/dropdown/index.ts:77-82 | the test runs on the original child: a directory holding only an empty directory is kept, and only the inner one is dropped |
| `Dropdown.CreateDropdownFiles` | src/components/dropdown/index.ts:64-72 | one file leaf per file name |
| `Dropdown.DropdownFilesNames` | src/components/dropdown/index.ts:64-72 | the leaves' names are the file names, in input order |
| `Dropdown.CreateDropdownFromDirectory` | src/components/dropdown/index.ts:74-89 | the loops (recurse into each non-empty sub-directory and append it; append each file leaf) build exactly `Tree(d)` |
| `Dropdown.TreeIsDropdown` | src/components/dropdown/index.ts:35-54 | every built dropdown, at every level: children exactly [header, container]; header at the dropdown's depth, its name a prefix of the id; container id = id + "-container", display "none"; toggle bound to the header's button and icon ids and the container id; files container first, holding file leaves at the same depth; child dropdowns one level deeper |
| `Dropdown.SubTreesAreDropdowns` | src/components/dropdown/index.ts:77-82 | every child dropdown appended to a container has the dropdown shape at the child depth |
| `Dropdown.TreeOutline` | src/components/dropdown/index.ts:74-89 | round trip: reading the built tree back gives the pruned descriptor with seed ids for paths; the same files and kept sub-directories, in input order |
| `Dropdown.SubTreesOutline` | src/components/dropdown/index.ts:77-82 | the folders container, after its files container, holds one child per kept sub-directory, in input order |
| `Dropdown.TreeFileLeaves` | src/components/dropdown/index.ts:74-89 | the built tree's file leaves, in document order, are the pre-order files of the pruned descriptor |
| `Dropdown.SubTreesFileLeaves` | src/components/dropdown/index.ts:77-86 | the child dropdowns' leaves are the pre-order files of the pruned sub-directories |
| `Dropdown.LeafCount` | src/components/dropdown/index.ts:74-89 | the number of file leaves equals the total number of files over the root and every non-pruned sub-directory |
| `Dropdown.DocsScenario` | src/components/dropdown/index.ts:74-89 | `docs` with one empty sub-directory and `intro.md`, pruning on: one leaf `intro.md`, no sub-branch |
| `Dropdown.Click` | src/components/dropdown/index.ts:10-29 | a missing button, chevron or container changes nothing; otherwise the expanded state flips, the chevron is at 0deg or 90deg, the container shows `block` exactly when expanded and `none` otherwise; the chevron's display and the container's transform are kept, and no other element changes |
| `Dropdown.ClickSettles` | src/components/dropdown/index.ts:17-26 | after any click that finds its elements, the toggle is in one of its two consistent states |
| `Dropdown.ClickTwiceRestores` | src/components/dropdown/index.ts:17-26 | from either consistent state, two clicks give back exactly the same page |
| `Dropdown.CollapsedStartTwoClicks` | src/components/dropdown/index.ts:17-26 | from the collapsed start (container `none`, chevron not turned), two clicks end collapsed with the chevron at `rotate(0deg)` |
| `Dropdown.ToUpper` | src/components/dropdown/index.ts:94 | upper-casing keeps the length, turns each ASCII `a`-`z` into its capital and leaves every other character as it was |
| `Dropdown.SetTextContent` | src/components/dropdown/index.ts:91-96 | the label (the header's second child) reads back as the upper-cased text when it exists, and the header is the old header with only that label's text replaced; without a label the component is returned unchanged; nothing but the header is touched |
| `Dropdown.SetTextContentLastWins` | src/components/dropdown/index.ts:91-96 | a second write overrides the first: only the label's text is ever written |
| `Pages.Page.constructor` | src/containers/page/index.ts:73-91 | after construction: the page keeps the given configuration and collaborators; the only child is the `markdown-body` content node, compiled into the body; the style buffer is the generated global CSS followed by the theme file; no scripts; the page invariant holds |
| `Pages.Page.AddGlobalStyles` | src/containers/page/index.ts:93-102 | the text, or the CSS generated from a mapping, is appended: the old buffer is a prefix of the new one; nothing else changes |
| `Pages.Page.AddExternalGlobalCSS` | src/containers/page/index.ts:104-106 | the same effect as appending the file's contents as text |
| `Pages.Page.AddGlobalScript` | src/containers/page/index.ts:108-113 | exactly one fragment `{` + code + `}` is added at the end; earlier fragments and their order are unchanged |
| `Pages.ScriptFragmentWraps` | src/containers/page/index.ts:111 | a fragment is a braced block whose inside is exactly the wrapped code |
| `Pages.ScriptFragmentInjective` | src/containers/page/index.ts:111 | different code gives different fragments |
| `Pages.Page.AppendChild` | src/containers/page/index.ts:115-119 | children grow by one with the child last; the body grows by its compiled element; earlier entries are unchanged and the page invariant is kept |
| `Pages.Page.Serialize` | src/containers/page/index.ts:129-139 | writes the document (style buffer, body, scripts) to `outDir` joined with `title + ".html"` |
| `Pages.FileNameDeterminesTitle` | src/containers/page/index.ts:138 | the file name is the title followed by ".html", and it determines the title |

## Left out

- JSDOM is not modelled: the document, `dom.serialize()`, `querySelectorAll` and real DOM node semantics. The written document is the `Document` value (style text, body elements, scripts), not HTML text.
- The model does not cover calling `serialize` more than once. The style element is appended to the head at construction and again on serialize. The script fragment is appended on serialize. What repeated appends do is up to the DOM library, so `Serialize` changes no field.
- The file system is not modelled. `fs.readFileSync` is the `readFile` field of `Env`. A read failure, which aborts the run, is not modelled. `fs.writeFileSync` becomes the `Written` value that `Serialize` returns.
- `marked`, `hljs.highlightElement`, `generateInlineCSS`, `path.join` and `compile()` are uninterpreted function fields of `Env`. The theme file's text and the page contents are opaque.
- `CSS` is a Dafny `map`, which has no key order. In the source, a style mapping is an object literal whose selectors and properties keep the order they are written in (`src/containers/page/index.ts:16-46`), and `generateInlineCSS` receives that object (`src/containers/page/index.ts:77`, `99`). The order of the generated rules is therefore lost: the model's `generateInlineCSS` cannot depend on it.
- `setSessionParam` / `getSessionParam` are not modelled: they pass straight through to browser session storage.
- `makeID` is random, so each dropdown gets its `Ids` from a parameter indexed by its position in the build. That ids never collide is not proved, because id generation is not part of this model.
- `DropdownFolder` and `DropdownFile` are not part of this model. They are opaque leaves that keep their name, depth and, for the folder, its button and icon ids. The folder's own children are not modelled, so on a built tree the label setter finds no label. `SetTextContent` is stated for every component.
- Page ownership (`recursivelySetPage`, `./helper`) is not part of this model. In the source, appending a child hands it the page, and that is how a component registers its styles and scripts on the page. Those registrations are not modelled, so `Pages.Page.AppendChild` leaves `globalStyles` and `globalScripts` unchanged only in the model.
- The `sidebar` that the page constructor stores is not modelled, since the shown code never uses it.
- Cyclic directory descriptors are out of scope: an inductive datatype cannot express them.
- The model builds values. The source appends the files container into the folders container first and fills it afterwards, through the shared object. The model assembles the same final tree at the end.
- `compilationOptions` is modelled only by its truthiness.
- The configuration is one fixed `Config` value: each page takes it at construction and reads it from then on. The source reads the global `config` at three different times:
  - `config.baseDir` once, when the page module loads, for the theme directory (`src/containers/page/index.ts:48-51`);
  - `config.codeTheme` when a page is constructed (`src/containers/page/index.ts:80`);
  - `config.outDir` when `serialize` runs (`src/containers/page/index.ts:138`).

  A configuration that changes between those points is not captured, for example an old `baseDir` used with a current `outDir`.
- Dropdown.Click: the model uses one snapshot of the page. The button is looked up when the page loads and the other two elements at click time, so a button removed between load and click is not captured.
- Dropdown.ToUpper: maps only ASCII letters. JavaScript's `toUpperCase` also maps other letters and can change a string's length (e.g. 'ß' to "SS").
- Dropdown.SetTextContent: requires the dropdown to have a first child. A `Dropdown` always has one, its header.
