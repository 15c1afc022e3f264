/**
 * The navigation dropdown: a builder that mirrors a directory descriptor into
 * a tree of collapsible dropdowns (pruning empty sub-directories when the
 * configuration asks for it), the fold/unfold toggle each dropdown wires, and
 * the setter for a dropdown's label.
 */
module Dropdown {
  import opened Components
  import opened Configuration

  /** A directory descriptor: read-only input of the builder. */
  datatype Directory = Directory(path: string, subDirectories: seq<Directory>, files: seq<string>)

  /** What id generation yields for one dropdown: the random suffix of the
      dropdown's own id, and the ids of its folder header's button and icon. */
  datatype Ids = Ids(suffix: string, buttonId: string, iconId: string)

  // The builder draws `Ids` from `draw: seq<nat> -> Ids`, indexed by where the
  // dropdown is built: the root at [], the i-th sub-directory of a dropdown
  // built at `at` at `at + [i]`. Each constructor call thus gets its own draw.

  /* ------------------------------------------------------------ seed id */

  /** `s.split(sep)` for a one-character separator: never empty, no part holds
      the separator, and joining the parts with it gives back `s`. */
  function Split(s: string, sep: char): (parts: seq<string>)
    ensures |parts| >= 1
    ensures forall k, i :: 0 <= k < |parts| && 0 <= i < |parts[k]| ==> parts[k][i] != sep
    ensures Join(parts, [sep]) == s
  {
    if |s| == 0 then [""]
    else
      var rest := Split(s[1..], sep);
      if s[0] == sep then
        assert ([""] + rest)[1..] == rest;
        [""] + rest
      else
        JoinPrepend([s[0]], rest[0], rest[1..], [sep]);
        assert [rest[0]] + rest[1..] == rest;
        [[s[0]] + rest[0]] + rest[1..]
  }

  /** `parts.join(sep)`. */
  function Join(parts: seq<string>, sep: string): string
  {
    if |parts| == 0 then ""
    else if |parts| == 1 then parts[0]
    else parts[0] + sep + Join(parts[1..], sep)
  }

  /** The seed id a dropdown is built with: `path.split('/').join('-')`. */
  function Seed(path: string): string
  {
    Join(Split(path, '/'), "-")
  }

  /** Reference definition of the seed: the path with every '/' replaced by '-'. */
  function ReplaceSlashes(s: string): (r: string)
  {
    seq(|s|, i requires 0 <= i < |s| => if s[i] == '/' then '-' else s[i])
  }

  lemma {:induction false} JoinPrepend(x: string, p: string, ps: seq<string>, sep: string)
    ensures Join([x + p] + ps, sep) == x + Join([p] + ps, sep)
  {
  }

  /** Splitting on '/' and joining with '-' replaces every '/' by '-' and keeps everything else. */
  lemma {:induction false} SeedReplacesSlashes(path: string)
    ensures Seed(path) == ReplaceSlashes(path)
    ensures |Seed(path)| == |path| && '/' !in Seed(path)
    decreases |path|
  {
    if |path| > 0 {
      var rest := Split(path[1..], '/');
      SeedReplacesSlashes(path[1..]);
      assert ReplaceSlashes(path) == [if path[0] == '/' then '-' else path[0]] + ReplaceSlashes(path[1..]);
      if path[0] == '/' {
        assert ([""] + rest)[1..] == rest;
      } else {
        JoinPrepend([path[0]], rest[0], rest[1..], "-");
        assert [rest[0]] + rest[1..] == rest;
      }
    }
  }

  /* ------------------------------------------------------------ pruning */

  /** `Dropdown.isDirectoryEmpty`: only ever true when pruning is switched on,
      and then only for a directory that holds no file at any depth. */
  predicate IsDirectoryEmpty(cfg: Config, d: Directory)
    ensures IsDirectoryEmpty(cfg, d) ==> cfg.compilationOptions && TotalFiles(d) == 0
  {
    cfg.compilationOptions && |d.subDirectories| == 0 && |d.files| == 0
  }

  /** The sub-directories the builder descends into, in input order; the
      emptiness test looks at each original descriptor. */
  function Kept(cfg: Config, subs: seq<Directory>): seq<Directory>
  {
    if |subs| == 0 then []
    else
      var last := subs[|subs| - 1];
      Kept(cfg, subs[..|subs| - 1]) + (if IsDirectoryEmpty(cfg, last) then [] else [last])
  }

  /** The descriptor as the built tree mirrors it: empty sub-directories dropped,
      level by level, with each level tested before its own children are pruned. */
  function Pruned(cfg: Config, d: Directory): Directory
    decreases d
  {
    Directory(d.path, PrunedAll(cfg, d.subDirectories), d.files)
  }

  function PrunedAll(cfg: Config, subs: seq<Directory>): seq<Directory>
    decreases subs
  {
    if |subs| == 0 then []
    else
      var last := subs[|subs| - 1];
      PrunedAll(cfg, subs[..|subs| - 1]) + (if IsDirectoryEmpty(cfg, last) then [] else [Pruned(cfg, last)])
  }

  /** Files of a descriptor in pre-order: its own files, then each sub-directory's. */
  function FilesPreorder(d: Directory): seq<string>
    decreases d
  {
    d.files + FilesPreorderOf(d.subDirectories)
  }

  function FilesPreorderOf(ds: seq<Directory>): seq<string>
    decreases ds
  {
    if |ds| == 0 then [] else FilesPreorderOf(ds[..|ds| - 1]) + FilesPreorder(ds[|ds| - 1])
  }

  /** The number of files of a descriptor and all its sub-directories. */
  function TotalFiles(d: Directory): nat
    decreases d
  {
    |d.files| + TotalFilesOf(d.subDirectories)
  }

  function TotalFilesOf(ds: seq<Directory>): nat
    decreases ds
  {
    if |ds| == 0 then 0 else TotalFilesOf(ds[..|ds| - 1]) + TotalFiles(ds[|ds| - 1])
  }

  /** A sub-directory is descended into exactly when it is not empty. */
  lemma {:induction false} KeptExactly(cfg: Config, subs: seq<Directory>, x: Directory)
    ensures x in Kept(cfg, subs) <==> x in subs && !IsDirectoryEmpty(cfg, x)
    decreases |subs|
  {
    if |subs| > 0 {
      var n := |subs| - 1;
      KeptExactly(cfg, subs[..n], x);
      assert subs == subs[..n] + [subs[n]];
    }
  }

  /** Pruning a list of sub-directories prunes, in order, exactly the kept ones. */
  lemma {:induction false} PrunedAllIsKept(cfg: Config, subs: seq<Directory>)
    ensures |PrunedAll(cfg, subs)| == |Kept(cfg, subs)|
    ensures forall j :: 0 <= j < |Kept(cfg, subs)| ==> PrunedAll(cfg, subs)[j] == Pruned(cfg, Kept(cfg, subs)[j])
    decreases |subs|
  {
    if |subs| > 0 {
      PrunedAllIsKept(cfg, subs[..|subs| - 1]);
    }
  }

  /** With pruning switched off, nothing is ever pruned. */
  lemma {:induction false} NothingPrunedWhenOff(cfg: Config, d: Directory)
    requires !cfg.compilationOptions
    ensures Pruned(cfg, d) == d
    decreases d, 1
  {
    NothingPrunedWhenOffAll(cfg, d.subDirectories);
  }

  lemma {:induction false} NothingPrunedWhenOffAll(cfg: Config, subs: seq<Directory>)
    requires !cfg.compilationOptions
    ensures PrunedAll(cfg, subs) == subs
    decreases subs, 0
  {
    if |subs| > 0 {
      var n := |subs| - 1;
      NothingPrunedWhenOffAll(cfg, subs[..n]);
      NothingPrunedWhenOff(cfg, subs[n]);
      assert subs == subs[..n] + [subs[n]];
    }
  }

  /** The emptiness test looks at the original descriptor: a sub-directory whose
      only content is an empty directory survives, and becomes an empty branch. */
  lemma NestedEmptyDirectorySurvives(cfg: Config, root: string, p: string, e: Directory, files: seq<string>)
    requires IsDirectoryEmpty(cfg, e)
    ensures var d := Directory(root, [Directory(p, [e], [])], files);
      && Kept(cfg, d.subDirectories) == d.subDirectories
      && Pruned(cfg, d) == Directory(root, [Directory(p, [], [])], files)
  {
    var s := Directory(p, [e], []);
    assert [s][..0] == [] && [e][..0] == [];
    assert !IsDirectoryEmpty(cfg, s);
    assert PrunedAll(cfg, [e]) == [];
    assert Pruned(cfg, s) == Directory(p, [], []);
    assert PrunedAll(cfg, [s]) == [Directory(p, [], [])];
  }

  lemma {:induction false} FilesPreorderLength(d: Directory)
    ensures |FilesPreorder(d)| == TotalFiles(d)
    decreases d, 1
  {
    FilesPreorderLengthOf(d.subDirectories);
  }

  lemma {:induction false} FilesPreorderLengthOf(ds: seq<Directory>)
    ensures |FilesPreorderOf(ds)| == TotalFilesOf(ds)
    decreases ds, 0
  {
    if |ds| > 0 {
      FilesPreorderLengthOf(ds[..|ds| - 1]);
      FilesPreorderLength(ds[|ds| - 1]);
    }
  }

  /* ------------------------------------------------------------ the tree */

  /** `new DropdownFile(name, depth)`: an opaque file leaf. */
  function FileLeaf(name: string, depth: nat): Component
  {
    Component(File(name, depth), "", "", "", "", "", [], None)
  }

  /** `new DropdownFolder(name, depth)`: an opaque folder header exposing its button and icon ids. */
  function FolderHeader(name: string, depth: nat, ids: Ids): Component
  {
    Component(Folder(name, depth, ids.buttonId, ids.iconId), "", "", "", "", "", [], None)
  }

  /** `Dropdown.createDropdownFiles`: one file leaf per name, at the given depth. */
  function CreateDropdownFiles(files: seq<string>, depth: nat): (leaves: seq<Component>)
    ensures |leaves| == |files|
  {
    seq(|files|, i requires 0 <= i < |files| => FileLeaf(files[i], depth))
  }

  const MenuFunctionality := "menuFunctionality"
  const ContainerSuffix := "-container"

  /** The layout the `Dropdown` constructor sets up, once its files container
      holds `leaves` and its folders container holds `subs` after the files container. */
  function Layout(seed: string, depth: nat, ids: Ids, leaves: seq<Component>, subs: seq<Component>): (r: Component)
    ensures |r.children| == 2 && r.children[0].kind.Folder?
    ensures r.id == seed + ids.suffix && r.children[0].kind.name == seed
    ensures r.children[1].id == r.id + ContainerSuffix && r.children[1].display == "none"
  {
    var id := seed + ids.suffix;
    var folders := NewDiv(id + ContainerSuffix, "", "none", [NewDiv("", "", "", leaves)] + subs);
    Component(Kind.Div, id, "dropdown", "", "", "", [FolderHeader(seed, depth, ids), folders],
      Some(Behaviour(MenuFunctionality,
        map["buttonId" := ids.buttonId, "chevronId" := ids.iconId, "containerId" := folders.id])))
  }

  /** The constructor's layout is a dropdown as soon as the files container holds
      file leaves at its depth and the folders container dropdowns one level
      deeper; its file leaves are those of the files container, then the children's. */
  lemma LayoutShape(seed: string, depth: nat, ids: Ids, leaves: seq<Component>, subs: seq<Component>)
    ensures (forall leaf <- leaves :: leaf.kind.File? && leaf.kind.depth == depth && leaf.children == [])
         && (forall c <- subs :: IsDropdown(c, depth + 1))
         ==> IsDropdown(Layout(seed, depth, ids, leaves, subs), depth)
    ensures FileLeaves(Layout(seed, depth, ids, leaves, subs)) == FileLeavesOf(leaves) + FileLeavesOf(subs)
  {
    var r := Layout(seed, depth, ids, leaves, subs);
    var header := r.children[0];
    var folders := r.children[1];
    var box := folders.children[0];
    assert folders.children == [box] + subs;
    FileLeavesOfConcat([box], subs);
    assert [header, folders][..1] == [header] && [header][..0] == [] && [box][..0] == [];
    assert FileLeaves(header) == [];
    assert FileLeavesOf(r.children) == FileLeaves(folders);
    if (forall leaf <- leaves :: leaf.kind.File? && leaf.kind.depth == depth && leaf.children == [])
       && (forall c <- subs :: IsDropdown(c, depth + 1))
    {
      forall k | 1 <= k < |folders.children| ensures IsDropdown(folders.children[k], depth + 1) {
        assert folders.children[k] == subs[k - 1] && subs[k - 1] in subs;
      }
    }
  }

  /** The dropdown that `Dropdown.createDropdownFromDirectory(d, depth)` returns. */
  function Tree(cfg: Config, draw: seq<nat> -> Ids, d: Directory, depth: nat, at: seq<nat>): Component
    decreases d
  {
    Layout(Seed(d.path), depth, draw(at), CreateDropdownFiles(d.files, depth),
      SubTrees(cfg, draw, d.subDirectories, depth + 1, at))
  }

  /** The child dropdowns built for `subs` (at `depth`), in input order, empty ones skipped. */
  function SubTrees(cfg: Config, draw: seq<nat> -> Ids, subs: seq<Directory>, depth: nat, at: seq<nat>): seq<Component>
    decreases subs
  {
    if |subs| == 0 then []
    else
      var n := |subs| - 1;
      SubTrees(cfg, draw, subs[..n], depth, at)
        + (if IsDirectoryEmpty(cfg, subs[n]) then [] else [Tree(cfg, draw, subs[n], depth, at + [n])])
  }

  /**
   * `Dropdown.createDropdownFromDirectory`: the loop over the sub-directories
   * recurses into each non-empty one and appends the child to the folders
   * container; the loop over the files appends each file leaf to the files container.
   */
  method CreateDropdownFromDirectory(cfg: Config, draw: seq<nat> -> Ids, d: Directory, depth: nat, at: seq<nat>)
    returns (dropdown: Component)
    ensures dropdown == Tree(cfg, draw, d, depth, at)
    decreases d
  {
    var subs: seq<Component> := [];
    var i := 0;
    while i < |d.subDirectories|
      invariant 0 <= i <= |d.subDirectories|
      invariant subs == SubTrees(cfg, draw, d.subDirectories[..i], depth + 1, at)
    {
      var dir := d.subDirectories[i];
      assert d.subDirectories[..i + 1][..i] == d.subDirectories[..i];
      if !IsDirectoryEmpty(cfg, dir) {
        var child := CreateDropdownFromDirectory(cfg, draw, dir, depth + 1, at + [i]);
        subs := subs + [child];
      }
      i := i + 1;
    }
    assert d.subDirectories[..i] == d.subDirectories;

    var files := CreateDropdownFiles(d.files, depth);
    var leaves: seq<Component> := [];
    var j := 0;
    while j < |files|
      invariant 0 <= j <= |files|
      invariant leaves == files[..j]
    {
      leaves := leaves + [files[j]];
      j := j + 1;
    }
    assert files[..j] == files;
    dropdown := Layout(Seed(d.path), depth, draw(at), leaves, subs);
  }

  /* ------------------------------------------------- shape of a dropdown */

  /**
   * What every dropdown looks like: children exactly [folder header, folders
   * container]; the header's name is a prefix of the dropdown's id; the
   * container's id is the dropdown's id + "-container" and it starts hidden;
   * the toggle is bound to the header's button and icon and to the container;
   * the container holds the files container first, whose entries are file
   * leaves at the dropdown's own depth, then dropdowns one level deeper.
   */
  ghost predicate IsDropdown(c: Component, depth: nat)
    decreases c
  {
    && c.kind == Kind.Div
    && c.className == "dropdown"
    && |c.children| == 2
    && c.children[0].kind.Folder?
    && c.children[0].kind.depth == depth
    && c.children[0].kind.name <= c.id
    && c.children[1].id == c.id + ContainerSuffix
    && c.children[1].display == "none"
    && c.behaviour == Some(Behaviour(MenuFunctionality,
         map["buttonId" := c.children[0].kind.buttonId,
             "chevronId" := c.children[0].kind.iconId,
             "containerId" := c.children[1].id]))
    && |c.children[1].children| >= 1
    && (forall leaf <- c.children[1].children[0].children ::
          leaf.kind.File? && leaf.kind.depth == depth && leaf.children == [])
    && (forall k | 1 <= k < |c.children[1].children| :: IsDropdown(c.children[1].children[k], depth + 1))
  }

  /** Reads a dropdown tree back into the descriptor it mirrors: the header's
      name, the file leaves of the files container, the child dropdowns. */
  ghost function Outline(c: Component): Directory
    decreases c
  {
    if |c.children| == 2 && c.children[0].kind.Folder? && |c.children[1].children| >= 1 then
      Directory(c.children[0].kind.name, OutlineOf(c.children[1].children),
        FileLeavesOf(c.children[1].children[0].children))
    else
      Directory("", [], [])
  }

  /** Outlines of all but the first entry of a folders container. */
  ghost function OutlineOf(cs: seq<Component>): seq<Directory>
    decreases cs
  {
    if |cs| <= 1 then [] else OutlineOf(cs[..|cs| - 1]) + [Outline(cs[|cs| - 1])]
  }

  /** A descriptor with every path replaced by its seed id. */
  function SeedPaths(d: Directory): Directory
    decreases d
  {
    Directory(Seed(d.path), SeedPathsOf(d.subDirectories), d.files)
  }

  function SeedPathsOf(ds: seq<Directory>): seq<Directory>
    decreases ds
  {
    if |ds| == 0 then [] else SeedPathsOf(ds[..|ds| - 1]) + [SeedPaths(ds[|ds| - 1])]
  }

  /** The files container holds one leaf per file, in input order. */
  lemma {:induction false} DropdownFilesNames(files: seq<string>, depth: nat)
    ensures FileLeavesOf(CreateDropdownFiles(files, depth)) == files
    decreases |files|
  {
    if |files| > 0 {
      var n := |files| - 1;
      var leaves := CreateDropdownFiles(files, depth);
      assert leaves[..n] == CreateDropdownFiles(files[..n], depth);
      assert FileLeaves(leaves[n]) == [files[n]] by {
        assert leaves[n] == FileLeaf(files[n], depth);
      }
      DropdownFilesNames(files[..n], depth);
      assert files == files[..n] + [files[n]];
    }
  }

  /** A built dropdown's ids: the seed is the path with '/' replaced by '-', the
      dropdown's id is the seed followed by its drawn suffix, and the container's
      id is that id followed by "-container". */
  lemma TreeIds(cfg: Config, draw: seq<nat> -> Ids, d: Directory, depth: nat, at: seq<nat>)
    ensures var t := Tree(cfg, draw, d, depth, at);
      && t.children[0].kind.name == ReplaceSlashes(d.path)
      && t.id == ReplaceSlashes(d.path) + draw(at).suffix
      && t.children[1].id == ReplaceSlashes(d.path) + draw(at).suffix + ContainerSuffix
  {
    SeedReplacesSlashes(d.path);
  }

  /** Every dropdown the builder returns has the dropdown shape, at every level. */
  lemma {:induction false} TreeIsDropdown(cfg: Config, draw: seq<nat> -> Ids, d: Directory, depth: nat, at: seq<nat>)
    ensures IsDropdown(Tree(cfg, draw, d, depth, at), depth)
    decreases d, 1
  {
    SubTreesAreDropdowns(cfg, draw, d.subDirectories, depth + 1, at);
    LayoutShape(Seed(d.path), depth, draw(at), CreateDropdownFiles(d.files, depth),
      SubTrees(cfg, draw, d.subDirectories, depth + 1, at));
  }

  lemma {:induction false} SubTreesAreDropdowns(cfg: Config, draw: seq<nat> -> Ids, subs: seq<Directory>, depth: nat, at: seq<nat>)
    ensures forall c <- SubTrees(cfg, draw, subs, depth, at) :: IsDropdown(c, depth)
    decreases subs, 0
  {
    if |subs| > 0 {
      var n := |subs| - 1;
      SubTreesAreDropdowns(cfg, draw, subs[..n], depth, at);
      if !IsDirectoryEmpty(cfg, subs[n]) {
        TreeIsDropdown(cfg, draw, subs[n], depth, at + [n]);
      }
    }
  }

  /** Round trip: the built tree mirrors exactly the pruned descriptor, with
      paths turned into seed ids, sub-directories and files in input order. */
  lemma {:induction false} TreeOutline(cfg: Config, draw: seq<nat> -> Ids, d: Directory, depth: nat, at: seq<nat>)
    ensures Outline(Tree(cfg, draw, d, depth, at)) == SeedPaths(Pruned(cfg, d))
    decreases d, 1
  {
    var t := Tree(cfg, draw, d, depth, at);
    SubTreesOutline(cfg, draw, d.subDirectories, depth + 1, at, t.children[1].children[0]);
    DropdownFilesNames(d.files, depth);
  }

  lemma {:induction false} SubTreesOutline(cfg: Config, draw: seq<nat> -> Ids, subs: seq<Directory>, depth: nat, at: seq<nat>, first: Component)
    ensures OutlineOf([first] + SubTrees(cfg, draw, subs, depth, at)) == SeedPathsOf(PrunedAll(cfg, subs))
    decreases subs, 0
  {
    if |subs| > 0 {
      var n := |subs| - 1;
      var prefix := [first] + SubTrees(cfg, draw, subs[..n], depth, at);
      SubTreesOutline(cfg, draw, subs[..n], depth, at, first);
      if !IsDirectoryEmpty(cfg, subs[n]) {
        var child := Tree(cfg, draw, subs[n], depth, at + [n]);
        TreeOutline(cfg, draw, subs[n], depth, at + [n]);
        assert [first] + SubTrees(cfg, draw, subs, depth, at) == prefix + [child];
        OutlineOfSnoc(prefix, child);
        assert PrunedAll(cfg, subs) == PrunedAll(cfg, subs[..n]) + [Pruned(cfg, subs[n])];
        SeedPathsOfSnoc(PrunedAll(cfg, subs[..n]), Pruned(cfg, subs[n]));
      } else {
        assert [first] + SubTrees(cfg, draw, subs, depth, at) == prefix;
        assert PrunedAll(cfg, subs) == PrunedAll(cfg, subs[..n]);
      }
    }
  }

  /** Appending a component to a folders container appends its outline. */
  lemma OutlineOfSnoc(prefix: seq<Component>, child: Component)
    requires |prefix| >= 1
    ensures OutlineOf(prefix + [child]) == OutlineOf(prefix) + [Outline(child)]
  {
  }

  /** Appending a descriptor appends its seed-path form. */
  lemma SeedPathsOfSnoc(ds: seq<Directory>, d: Directory)
    ensures SeedPathsOf(ds + [d]) == SeedPathsOf(ds) + [SeedPaths(d)]
  {
  }

  /** The file leaves of the built tree are the files of the pruned descriptor, in pre-order. */
  lemma {:induction false} TreeFileLeaves(cfg: Config, draw: seq<nat> -> Ids, d: Directory, depth: nat, at: seq<nat>)
    ensures FileLeaves(Tree(cfg, draw, d, depth, at)) == FilesPreorder(Pruned(cfg, d))
    decreases d, 1
  {
    DropdownFilesNames(d.files, depth);
    SubTreesFileLeaves(cfg, draw, d.subDirectories, depth + 1, at);
    LayoutShape(Seed(d.path), depth, draw(at), CreateDropdownFiles(d.files, depth),
      SubTrees(cfg, draw, d.subDirectories, depth + 1, at));
  }

  lemma {:induction false} SubTreesFileLeaves(cfg: Config, draw: seq<nat> -> Ids, subs: seq<Directory>, depth: nat, at: seq<nat>)
    ensures FileLeavesOf(SubTrees(cfg, draw, subs, depth, at)) == FilesPreorderOf(PrunedAll(cfg, subs))
    decreases subs, 0
  {
    if |subs| > 0 {
      var n := |subs| - 1;
      var prefix := SubTrees(cfg, draw, subs[..n], depth, at);
      SubTreesFileLeaves(cfg, draw, subs[..n], depth, at);
      if !IsDirectoryEmpty(cfg, subs[n]) {
        var child := Tree(cfg, draw, subs[n], depth, at + [n]);
        TreeFileLeaves(cfg, draw, subs[n], depth, at + [n]);
        assert (prefix + [child])[..|prefix|] == prefix;
        assert FileLeavesOf(prefix + [child]) == FileLeavesOf(prefix) + FileLeaves(child);
        var pruned := PrunedAll(cfg, subs[..n]) + [Pruned(cfg, subs[n])];
        assert PrunedAll(cfg, subs) == pruned;
        assert pruned[..|pruned| - 1] == PrunedAll(cfg, subs[..n]);
        assert FilesPreorderOf(pruned) == FilesPreorderOf(PrunedAll(cfg, subs[..n])) + FilesPreorder(Pruned(cfg, subs[n]));
      } else {
        assert SubTrees(cfg, draw, subs, depth, at) == prefix;
        assert PrunedAll(cfg, subs) == PrunedAll(cfg, subs[..n]);
      }
    }
  }

  /** The built tree holds as many file leaves as the pruned descriptor has files. */
  lemma LeafCount(cfg: Config, draw: seq<nat> -> Ids, d: Directory, depth: nat, at: seq<nat>)
    ensures |FileLeaves(Tree(cfg, draw, d, depth, at))| == TotalFiles(Pruned(cfg, d))
  {
    TreeFileLeaves(cfg, draw, d, depth, at);
    FilesPreorderLength(Pruned(cfg, d));
  }

  /** The `docs` scenario: with pruning on, the empty sub-directory leaves no
      branch behind and the one file becomes the one leaf. */
  lemma DocsScenario(cfg: Config, draw: seq<nat> -> Ids)
    requires cfg.compilationOptions
    ensures var d := Directory("docs", [Directory("docs/empty", [], [])], ["intro.md"]);
      var t := Tree(cfg, draw, d, 0, []);
      && FileLeaves(t) == ["intro.md"]
      && Outline(t) == Directory("docs", [], ["intro.md"])
  {
    var d := Directory("docs", [Directory("docs/empty", [], [])], ["intro.md"]);
    TreeFileLeaves(cfg, draw, d, 0, []);
    TreeOutline(cfg, draw, d, 0, []);
    assert d.subDirectories[..0] == [];
    SeedReplacesSlashes("docs");
    assert ReplaceSlashes("docs") == "docs";
  }

  /* ------------------------------------------------------------ the toggle */

  /** The two style properties the toggle touches. */
  datatype Style = Style(transform: string, display: string)

  const Rotated := "rotate(90deg)"
  const Unrotated := "rotate(0deg)"

  predicate Expanded(page: map<string, Style>, chevronId: string)
    requires chevronId in page
  {
    page[chevronId].transform == Rotated
  }

  /**
   * One click on a dropdown's button in the loaded page (elements by id),
   * with `menuFunctionality(buttonId, chevronId, containerId)` run at load:
   * without the button no listener is attached; without the chevron or the
   * container the click does nothing.
   */
  function Click(page: map<string, Style>, buttonId: string, chevronId: string, containerId: string): (r: map<string, Style>)
    ensures r.Keys == page.Keys
    ensures !(buttonId in page && chevronId in page && containerId in page) ==> r == page
    ensures buttonId in page && chevronId in page && containerId in page ==>
      && (Expanded(r, chevronId) <==> !Expanded(page, chevronId))
      && r[chevronId].transform in {Rotated, Unrotated}
      && r[containerId].display == (if Expanded(r, chevronId) then "block" else "none")
      && (forall id <- page.Keys :: id != chevronId && id != containerId ==> r[id] == page[id])
      && (chevronId != containerId ==>
            r[chevronId].display == page[chevronId].display && r[containerId].transform == page[containerId].transform)
  {
    if buttonId in page && chevronId in page && containerId in page then
      if page[chevronId].transform == Rotated then
        var p := page[chevronId := page[chevronId].(transform := Unrotated)];
        p[containerId := p[containerId].(display := "none")]
      else
        var p := page[chevronId := page[chevronId].(transform := Rotated)];
        p[containerId := p[containerId].(display := "block")]
    else
      page
  }

  /** The toggle is in one of its two states, with the container's display matching the chevron. */
  predicate Settled(page: map<string, Style>, chevronId: string, containerId: string)
  {
    && chevronId in page && containerId in page
    && page[chevronId].transform in {Rotated, Unrotated}
    && page[containerId].display == (if page[chevronId].transform == Rotated then "block" else "none")
  }

  /** From either state of the two-state machine, two clicks return to the same state. */
  lemma ClickTwiceRestores(page: map<string, Style>, buttonId: string, chevronId: string, containerId: string)
    requires buttonId in page && Settled(page, chevronId, containerId)
    ensures Click(Click(page, buttonId, chevronId, containerId), buttonId, chevronId, containerId) == page
  {
  }

  /** From a collapsed start (container hidden, chevron not turned, whatever
      its transform), two clicks end collapsed again, with the chevron at 0deg. */
  lemma CollapsedStartTwoClicks(page: map<string, Style>, buttonId: string, chevronId: string, containerId: string)
    requires buttonId in page && chevronId in page && containerId in page
    requires !Expanded(page, chevronId) && page[containerId].display == "none"
    ensures var twice := Click(Click(page, buttonId, chevronId, containerId), buttonId, chevronId, containerId);
      && !Expanded(twice, chevronId)
      && twice[chevronId].transform == Unrotated
      && twice[containerId].display == "none"
  {
  }

  /** Any click that finds its elements leaves the toggle settled. */
  lemma ClickSettles(page: map<string, Style>, buttonId: string, chevronId: string, containerId: string)
    requires buttonId in page && chevronId in page && containerId in page
    ensures Settled(Click(page, buttonId, chevronId, containerId), chevronId, containerId)
  {
  }

  /* ------------------------------------------------------- label setter */

  function UpperChar(c: char): char
  {
    if 'a' <= c <= 'z' then (c as int - 32) as char else c
  }

  /** `text.toUpperCase()`, for the ASCII letters. */
  function ToUpper(s: string): (r: string)
    ensures |r| == |s|
    ensures forall i :: 0 <= i < |s| ==> !('a' <= r[i] <= 'z')
    ensures forall i :: 0 <= i < |s| ==>
      r[i] == s[i] || ('a' <= s[i] <= 'z' && r[i] as int == s[i] as int - 32)
  {
    seq(|s|, i requires 0 <= i < |s| => UpperChar(s[i]))
  }

  /** The label span, the second child of the folder header, if it exists. */
  function Label(c: Component): Option<string>
    requires |c.children| >= 1
  {
    if |c.children[0].children| >= 2 then Some(c.children[0].children[1].text) else None
  }

  /** The `textContent` setter of a dropdown. */
  function SetTextContent(c: Component, text: string): (r: Component)
    requires |c.children| >= 1
    ensures |r.children| == |c.children| && r.children[1..] == c.children[1..]
    ensures r.(children := c.children) == c
    ensures Label(r) == if Label(c).Some? then Some(ToUpper(text)) else None
    ensures Label(c).None? ==> r == c
    ensures Label(c).Some? ==>
      r.children[0] == c.children[0].(children := c.children[0].children[1 := c.children[0].children[1].(text := ToUpper(text))])
  {
    var header := c.children[0];
    if |header.children| >= 2 then
      var span := header.children[1].(text := ToUpper(text));
      c.(children := [header.(children := header.children[..1] + [span] + header.children[2..])] + c.children[1..])
    else
      c
  }

  /** Only the label's text is written: a second write overrides the first,
      and nothing but the span's text differs. */
  lemma SetTextContentLastWins(c: Component, t: string, u: string)
    requires |c.children| >= 1
    ensures SetTextContent(SetTextContent(c, t), u) == SetTextContent(c, u)
  {
    var header := c.children[0];
    if |header.children| >= 2 {
      var r := SetTextContent(c, t);
      assert r.children[0].children[..1] == header.children[..1];
      assert r.children[0].children[2..] == header.children[2..];
    }
  }
}
