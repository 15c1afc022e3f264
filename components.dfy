/** Configuration flags that the dropdown builder and the page read. */
module Configuration {
  /** `compilationOptions` is kept as its truthiness: the builder only ever tests it with `&&`. */
  datatype Config = Config(
    compilationOptions: bool,
    baseDir: string,
    outDir: string,
    codeTheme: string)
}

/**
 * Value model of the component tree (DOMComponent and its leaf variants) that
 * the dropdown builder produces and the page compiles.
 */
module Components {
  datatype Option<+T> = None | Some(value: T)

  /** The kinds of node that occur in the modelled code. Folder headers and file
      leaves are opaque: only their constructor arguments and the ids the
      dropdown reads from the header are kept. */
  datatype Kind =
    | Div
    | Folder(name: string, depth: nat, buttonId: string, iconId: string)
    | File(name: string, depth: nat)

  /** A behaviour script attached to a node: the function's name and its bound parameters. */
  datatype Behaviour = Behaviour(fn: string, params: map<string, string>)

  datatype Component = Component(
    kind: Kind,
    id: string,
    className: string,
    display: string,
    text: string,
    html: string,
    children: seq<Component>,
    behaviour: Option<Behaviour>)

  /** A fresh `div` with the given id, class, display and children and nothing else set. */
  function NewDiv(id: string, className: string, display: string, children: seq<Component>): Component
  {
    Component(Kind.Div, id, className, display, "", "", children, None)
  }

  /** Names of the file leaves of a tree, in document (pre-)order. */
  function FileLeaves(c: Component): seq<string>
    decreases c
  {
    (if c.kind.File? then [c.kind.name] else []) + FileLeavesOf(c.children)
  }

  function FileLeavesOf(cs: seq<Component>): seq<string>
    decreases cs
  {
    if |cs| == 0 then [] else FileLeavesOf(cs[..|cs| - 1]) + FileLeaves(cs[|cs| - 1])
  }

  lemma {:induction false} FileLeavesOfConcat(a: seq<Component>, b: seq<Component>)
    ensures FileLeavesOf(a + b) == FileLeavesOf(a) + FileLeavesOf(b)
    decreases |b|
  {
    if |b| > 0 {
      var n := |b| - 1;
      assert (a + b)[..|a + b| - 1] == a + b[..n];
      assert (a + b)[|a + b| - 1] == b[n];
      FileLeavesOfConcat(a, b[..n]);
    } else {
      assert a + b == a;
    }
  }
}
