/**
 * A page: one output document with its ordered top-level children, the
 * compiled elements of its body, an append-only style buffer and an ordered
 * sequence of script fragments.
 */
module Pages {
  import opened Components
  import opened Configuration

  /** A style mapping: selector to (property to value). */
  type CSS = map<string, map<string, string>>

  /** What `addGlobalStyles` accepts: raw style text or a style mapping. */
  datatype StyleCode = Text(text: string) | Rules(css: CSS)

  /**
   * The collaborators the page calls and this model does not look into:
   * `path.join`, `fs.readFileSync`, `marked`, `hljs.highlightElement` over the
   * `pre code` blocks of the converted markup, `generateInlineCSS`, and a
   * component's `compile()` (its compiled element, as markup).
   */
  datatype Env = Env(
    join: (string, string) -> string,
    readFile: string -> string,
    marked: string -> string,
    highlight: string -> string,
    generateInlineCSS: CSS -> string,
    compile: Component -> string)

  datatype PageInfo = PageInfo(path: string, title: string, content: string)

  /** The document `serialize` writes: the head's style text, the body's
      elements, then the script fragments. */
  datatype Document = Document(style: string, body: seq<string>, scripts: seq<string>)

  /** One file write: its path and the document written. */
  datatype Written = Written(path: string, document: Document)

  /** The page-wide rules every page starts with. */
  const GlobalStyles: CSS := map[
    "*" := map["boxSizing" := "border-box"],
    ".page" := map[
      "position" := "absolute", "top" := "0", "width" := "100%", "height" := "100%",
      "margin" := "0", "fontFamily" := "sans-serif", "padding" := "10px 40px", "overflow" := "auto"],
    ".hljs" := map["whiteSpace" := "pre", "overflowX" := "auto"],
    ".markdown-body" := map[
      "position" := "absolute", "right" := "0", "top" := "0", "fontFamily" := "sans-serif",
      "width" := "calc(100% - 280px)", "height" := "100%", "padding" := "10px 40px"]]

  /** Where the highlight themes live, below the base directory. */
  const CodeStyleDir := "/node_modules/highlight.js/styles/"

  /** The text `addGlobalStyles` appends for each kind of argument. */
  function StyleText(env: Env, code: StyleCode): string
  {
    match code
    case Text(t) => t
    case Rules(css) => env.generateInlineCSS(css)
  }

  /** The theme file the constructor loads. */
  function ThemePath(cfg: Config, env: Env): string
  {
    env.join(env.join(cfg.baseDir, CodeStyleDir), cfg.codeTheme + ".css")
  }

  /** The style buffer right after construction: generated global CSS, then the theme. */
  function InitialStyles(cfg: Config, env: Env): string
  {
    env.generateInlineCSS(GlobalStyles) + env.readFile(ThemePath(cfg, env))
  }

  /** The text of the script element `addGlobalScript(code)` creates. */
  function ScriptFragment(code: string): string
  {
    "{" + code + "}"
  }

  /** A script text that is a braced block. */
  predicate IsFragment(f: string)
  {
    |f| >= 2 && f[0] == '{' && f[|f| - 1] == '}'
  }

  /** A fragment is a braced block whose inside is exactly the code it wraps. */
  lemma ScriptFragmentWraps(code: string)
    ensures IsFragment(ScriptFragment(code))
    ensures ScriptFragment(code)[1..|ScriptFragment(code)| - 1] == code
  {
  }

  /** Distinct code gives distinct fragments. */
  lemma ScriptFragmentInjective(a: string, b: string)
    requires ScriptFragment(a) == ScriptFragment(b)
    ensures a == b
  {
    ScriptFragmentWraps(a);
    ScriptFragmentWraps(b);
  }

  /** The name of the file a page is written to. */
  function FileName(title: string): string
  {
    title + ".html"
  }

  /** The file name ends in ".html" and determines the title it was made from. */
  lemma FileNameDeterminesTitle(a: string, b: string)
    ensures FileName(a)[|a|..] == ".html" && FileName(a)[..|a|] == a
    ensures FileName(a) == FileName(b) ==> a == b
  {
  }

  /** The content node: a `markdown-body` div holding the converted, highlighted markup. */
  function ContentNode(env: Env, markdown: string): Component
  {
    Component(Kind.Div, "", "markdown-body", "", "", env.highlight(env.marked(markdown)), [], None)
  }

  class Page {
    const cfg: Config
    const env: Env
    var path: string
    var title: string
    var content: Component
    var children: seq<Component>
    var body: seq<string>
    var globalStyles: string
    var globalScripts: seq<string>

    /** The body holds each child's compiled element, at the child's position. */
    ghost predicate Compiled()
      reads this
    {
      |body| == |children| && forall i :: 0 <= i < |children| ==> body[i] == env.compile(children[i])
    }

    /** The page's invariant: the content node is the first child, the style
        buffer still starts with what construction put there, and every script
        entry is a braced fragment. */
    ghost predicate Valid()
      reads this
    {
      && Compiled()
      && |children| >= 1 && children[0] == content
      && InitialStyles(cfg, env) <= globalStyles
      && forall f <- globalScripts :: IsFragment(f)
    }

    /** Construction: global rules, then the theme, then the content node as the first child. */
    constructor (info: PageInfo, cfg: Config, env: Env)
      ensures Valid()
      ensures this.cfg == cfg && this.env == env
      ensures path == info.path && title == info.title
      ensures content == ContentNode(env, info.content) && content.className == "markdown-body"
      ensures children == [content] && body == [env.compile(content)]
      ensures globalStyles == env.generateInlineCSS(GlobalStyles) + env.readFile(ThemePath(cfg, env))
      ensures globalScripts == []
    {
      this.cfg := cfg;
      this.env := env;
      path := info.path;
      title := info.title;
      children := [];
      body := [];
      globalStyles := "";
      globalScripts := [];
      new;
      AddGlobalStyles(Rules(GlobalStyles));
      AddExternalGlobalCSS(ThemePath(cfg, env));
      content := ContentNode(env, info.content);
      AppendChild(content);
    }

    /** Appends raw text, or the text generated from a mapping, to the style buffer. */
    method AddGlobalStyles(code: StyleCode)
      modifies this`globalStyles
      ensures globalStyles == old(globalStyles) + StyleText(env, code)
      ensures old(Valid()) ==> Valid()
    {
      globalStyles := globalStyles + StyleText(env, code);
    }

    /** Appends the contents of the file at `p` to the style buffer. */
    method AddExternalGlobalCSS(p: string)
      modifies this`globalStyles
      ensures globalStyles == old(globalStyles) + env.readFile(p)
      ensures old(Valid()) ==> Valid()
    {
      AddGlobalStyles(Text(env.readFile(p)));
    }

    /** Appends one braced fragment holding `code` to the script sequence. */
    method AddGlobalScript(code: string)
      modifies this`globalScripts
      ensures globalScripts == old(globalScripts) + [ScriptFragment(code)]
      ensures old(Valid()) ==> Valid()
    {
      ScriptFragmentWraps(code);
      globalScripts := globalScripts + [ScriptFragment(code)];
    }

    /** Appends the compiled element to the body and the child to the children. */
    method AppendChild(child: Component)
      modifies this`children, this`body
      ensures children == old(children) + [child]
      ensures body == old(body) + [env.compile(child)]
      ensures old(Compiled()) ==> Compiled()
      ensures old(Valid()) ==> Valid()
    {
      body := body + [env.compile(child)];
      children := children + [child];
    }

    /** The write `serialize` performs: the document, under the output directory, named after the title. */
    method Serialize() returns (w: Written)
      ensures w.path == env.join(cfg.outDir, FileName(title))
      ensures w.document == Document(globalStyles, body, globalScripts)
    {
      w := Written(env.join(cfg.outDir, FileName(title)), Document(globalStyles, body, globalScripts));
    }
  }
}
