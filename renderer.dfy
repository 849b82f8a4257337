/** The wikitext-to-HTML renderer of src/main.rs: `parse_nodes`,
    `parse_parameters` and `simple_tab`, over the syntax tree of the
    wikitext parser.  The parser itself is not modelled; `Node` keeps the
    variants the renderer looks at, and the two places where the renderer
    calls back into code it does not own -- the `Debug` form of a template
    name and the re-parse of the footnote buffer for `{{reflist}}` -- are
    parameters, bundled in an `Env`. */
module WikiRender {
  import opened Wrappers
  import opened Strings

  // ---------------------------------------------------------------------
  // the syntax tree

  /** A heading level, a `u8`. */
  newtype u8 = x: int | 0 <= x < 256

  datatype Node =
    | Bold
    | BoldItalic
    | Italic
    | MagicWord
    | Category(target: string, ordinal: seq<Node>)
    | CharacterEntity(character: char)
    | DefinitionList
    | EndTag(name: string)
    | ExternalLink(nodes: seq<Node>)
    | Heading(level: u8, nodes: seq<Node>)
    | HorizontalDivider
    | Image(target: string, text: seq<Node>)
    | Link(target: string, text: seq<Node>)
    | OrderedList(items: seq<ListItem>)
    | ParagraphBreak
    | Parameter
    | Preformatted(nodes: seq<Node>)
    | Redirect(target: string)
    | StartTag(name: string)
    | Table
    | Tag(name: string, nodes: seq<Node>)
    | Template(templateName: seq<Node>, parameters: seq<Param>)
    | Text(value: string)
    | UnorderedList(items: seq<ListItem>)
    /** Every kind the renderer ignores (comments, `<nowiki>` and the like). */
    | Other

  datatype ListItem = ListItem(nodes: seq<Node>)

  datatype ParamName = Unnamed | Named(nodes: seq<Node>)

  datatype Param = Param(name: ParamName, value: seq<Node>)

  /** A rendered parameter: its name (empty when it has none) and value. */
  type Pair = (string, string)

  /** The code the renderer calls but does not own. */
  datatype Env = Env(
    /** `format!("{:?}", name)` of a template's name nodes. */
    templateDebug: seq<Node> -> string,
    /** Re-parsing the footnote buffer as wikitext and rendering it. */
    renderReflist: string -> string)

  /** `parameters[..4]` in the `convert` branch aborts on fewer than four
      parameters; that abort is the only way rendering fails. */
  datatype RenderError = ConvertNeedsFourParameters(given: nat)

  // ---------------------------------------------------------------------
  // the state of one call

  /** The local variables of one `parse_nodes` call: the output `s`, the
      three toggles, the footnote buffer and the next footnote number. */
  datatype Ctx = Ctx(
    s: string,
    bold: bool,
    italic: bool,
    magicWord: bool,
    references: string,
    currentRef: nat)

  /** What every call starts from. */
  function Fresh(): Ctx {
    Ctx("", false, false, false, "", 1)
  }

  /** Appending to the output keeps what was written. */
  function Emit(c: Ctx, t: string): (c': Ctx)
    ensures c.s <= c'.s
  {
    c.(s := c.s + t)
  }

  function ToggleBold(c: Ctx): Ctx {
    var on := !c.bold;
    c.(bold := on, s := c.s + (if on then "<strong>" else "</strong>"))
  }

  function ToggleItalic(c: Ctx): Ctx {
    var on := !c.italic;
    c.(italic := on, s := c.s + (if on then "<em>" else "</em>"))
  }

  function ToggleMagicWord(c: Ctx): Ctx {
    var on := !c.magicWord;
    c.(magicWord := on, s := c.s + (if on then "<magic>" else "</magic>"))
  }

  // ---------------------------------------------------------------------
  // the HTML of single nodes

  /** The anchor a footnote leaves in the text. */
  function Anchor(n: nat): string {
    "<sup><a href=\"#ref-" + NatToString(n) + "\">[" + NatToString(n) + "]</a></sup> "
  }

  /** The entry a footnote adds to the footnote buffer. */
  function Footnote(n: nat, content: string): string {
    "<li id=\"ref-" + NatToString(n) + "\">" + content + "</li>\n "
  }

  function CategoryHtml(target: string, shown: string): string {
    "<a href=\"/" + target + "\">" + shown + "</a>"
  }

  /** A heading: the level, written in decimal, names the `h` element, and
      can be read back from it. */
  function HeadingHtml(level: u8, content: string): (r: string)
    ensures exists d ::
      && r == "<h" + d + ">" + content + "</h" + d + ">\n"
      && ParseU64(d) == Some(level as nat)
  {
    NatToStringParses(level as nat);
    var d := NatToString(level as nat);
    "<h" + d + ">" + content + "</h" + d + ">\n"
  }

  /** The href of an internal link: the target with every space made an
      underscore, and every other character kept. */
  function LinkHref(target: string): (h: string)
    ensures |h| == |target|
    ensures forall i :: 0 <= i < |h| ==> h[i] == (if target[i] == ' ' then '_' else target[i])
  {
    ReplaceCharPointwise(target, ' ', '_');
    ReplaceAll(target, " ", "_")
  }

  function LinkHtml(target: string, shown: string): string {
    "<a href=\"/" + LinkHref(target) + "\">" + shown + "</a>"
  }

  /** The href of an external link: the first whitespace-separated token
      of its rendered content (empty when there is none). */
  function ExternalHref(content: string): (u: string)
    ensures exists k: nat :: FirstTokenAt(content, u, k)
  {
    FirstWordIsFirstToken(content);
    FirstWord(content)
  }

  /** An external link: the label is the content with every occurrence of
      the href followed by a space removed. */
  function ExternalLinkHtml(content: string): string {
    var u := ExternalHref(content);
    "<a href=\"" + u + "\">" + ReplaceAll(content, u + " ", "") + "</a>"
  }

  /** The caption of an image: the last `|`-separated segment of its
      rendered text, which ends the text, holds no `|`, and follows a `|`
      unless it is the whole text. */
  function ImageCaption(text: string): (caption: string)
    ensures Free(caption, '|')
    ensures |caption| <= |text| && text[|text| - |caption|..] == caption
    ensures |caption| < |text| ==> text[|text| - |caption| - 1] == '|'
  {
    var pieces := Split(text, '|');
    JoinSplit(text, '|');
    JoinWithLast(pieces, "|");
    if |pieces| == 1 then
      assert JoinWith(pieces, "|") == pieces[0];
      pieces[0]
    else pieces[|pieces| - 1]
  }

  function ImageHtml(target: string, text: string): string {
    "<img src=\"" + target + "\" /> <p>" + ImageCaption(text) + "</p>\n"
  }

  // ---------------------------------------------------------------------
  // templates

  function Values(pairs: seq<Pair>): (vs: seq<string>)
    ensures |vs| == |pairs|
  {
    seq(|pairs|, i requires 0 <= i < |pairs| => pairs[i].1)
  }

  /** `{{height}}`: value then name of each parameter, last parameter
      first. */
  function HeightText(pairs: seq<Pair>): string
    decreases |pairs|
  {
    if pairs == [] then "" else HeightText(pairs[1..]) + pairs[0].1 + pairs[0].0
  }

  /** `{{convert}}`: the first four values run together; fewer than four
      parameters abort. */
  function ConvertText(pairs: seq<Pair>): (r: Result<string, RenderError>)
    ensures r.Err? <==> |pairs| < 4
    ensures r.Err? ==> r.error == ConvertNeedsFourParameters(|pairs|)
    ensures r.Ok? ==> r.value == pairs[0].1 + pairs[1].1 + pairs[2].1 + pairs[3].1
  {
    if |pairs| < 4 then Err(ConvertNeedsFourParameters(|pairs|))
    else
      var first := Values(pairs[..4]);
      assert Concat(first[3..]) == pairs[3].1 by {
        assert first[3..][1..] == [];
      }
      assert Concat(first[2..]) == pairs[2].1 + pairs[3].1 by {
        assert first[2..][1..] == first[3..];
      }
      assert Concat(first[1..]) == pairs[1].1 + pairs[2].1 + pairs[3].1 by {
        assert first[1..][1..] == first[2..];
      }
      Ok(Concat(first))
  }

  /** `{{rp}}`: the values, separated by single spaces, as a superscript. */
  function RpText(pairs: seq<Pair>): string {
    "<sup>:" + JoinWith(Values(pairs), " ") + "</sup>"
  }

  function MainHtml(pairs: seq<Pair>): string {
    if pairs == [] then ""
    else
      var u := pairs[0].1;
      "<em>See the main article: " + ("<a href=\"/" + u + "\">" + u + "</a>") + "</em><br><br>\n"
  }

  /** The template branch of `parse_nodes`: dispatch on the lowercased
      rendered name; any other name falls back to the parameter table. */
  function TemplateHtml(name: string, nameNodes: seq<Node>, pairs: seq<Pair>, references: string, env: Env)
    : Result<string, RenderError>
  {
    var lower := ToLower(name);
    if lower == "reflist" then Ok("<ol>\n" + env.renderReflist(references) + "</ol>\n")
    else if lower == "main" then Ok(MainHtml(pairs))
    else if lower == "height" then Ok(HeightText(pairs))
    else if lower == "convert" then ConvertText(pairs)
    else if lower == "clear" then Ok("<br><br>\n")
    else if lower == "rp" then Ok(RpText(pairs))
    else Ok(env.templateDebug(nameNodes) + ":<br> " + SimpleTabText(pairs))
  }

  // ---------------------------------------------------------------------
  // simple_tab

  function LinkValue(v: string): string {
    "<a href=\"" + v + "\">" + v + "</a>"
  }

  predicate Linkable(v: string) {
    (Contains(v, "http://") || Contains(v, "https://")) && !Contains(v, "<")
  }

  predicate Embeddable(name: string, v: string) {
    name == "image" || Contains(ToLower(v), ".jpg") || Contains(ToLower(v), ".png")
  }

  /** The value cell of a row: first made a link when it is a bare URL,
      then (tested on that result) made an image. */
  function Cell(name: string, value: string): string {
    var linked := if Linkable(value) then LinkValue(value) else value;
    if Embeddable(name, linked) then "<img src=\"" + linked + "\"/>" else linked
  }

  function Row(p: Pair): string {
    p.0 + ": " + Cell(p.0, p.1) + "<br>\n"
  }

  /** The output of `simple_tab`. */
  function SimpleTabText(pairs: seq<Pair>): string
    decreases |pairs|
  {
    if pairs == [] then "" else SimpleTabText(pairs[..|pairs| - 1]) + Row(pairs[|pairs| - 1])
  }

  // ---------------------------------------------------------------------
  // parse_nodes and parse_parameters

  /** `parse_nodes(nodes, do_refs)` */
  function Render(nodes: seq<Node>, doRefs: bool, env: Env): Result<string, RenderError>
    decreases nodes, 1
  {
    var c :- RenderSeq(nodes, Fresh(), doRefs, env);
    Ok(c.s)
  }

  /** The loop of `parse_nodes` from a given state. */
  function RenderSeq(nodes: seq<Node>, c: Ctx, doRefs: bool, env: Env): Result<Ctx, RenderError>
    decreases nodes, 0
  {
    if nodes == [] then Ok(c)
    else
      var c' :- RenderNode(nodes[0], c, doRefs, env);
      RenderSeq(nodes[1..], c', doRefs, env)
  }

  /** The nodes that hold nested content, rendered by a fresh call. */
  predicate Nested(n: Node) {
    || n.Category? || n.ExternalLink? || n.Heading? || n.Image? || n.Link?
    || n.OrderedList? || n.Preformatted? || n.Tag? || n.Template? || n.UnorderedList?
  }

  /** One node of the loop of `parse_nodes`. */
  function RenderNode(n: Node, c: Ctx, doRefs: bool, env: Env): Result<Ctx, RenderError>
    decreases n, 2
  {
    if Nested(n) then RenderNested(n, c, doRefs, env) else Ok(RenderFlat(n, c))
  }

  /** A node without nested content: a toggle, a piece of fixed markup, or
      nothing at all. */
  function RenderFlat(n: Node, c: Ctx): Ctx
    requires !Nested(n)
  {
    match n
    case Bold => ToggleBold(c)
    case BoldItalic => ToggleItalic(ToggleBold(c))
    case Italic => ToggleItalic(c)
    case MagicWord => ToggleMagicWord(c)
    case CharacterEntity(ch) => Emit(c, [ch])
    case DefinitionList => c
    case EndTag(name) => Emit(c, "</" + name + ">\n")
    case HorizontalDivider => Emit(c, "<hr>")
    case ParagraphBreak => Emit(c, "<br><br>\n")
    case Parameter => c
    case Redirect(target) => Emit(c, "REDIRECT TO: " + target)
    case StartTag(name) => Emit(c, "<" + name + ">")
    case Table => c
    case Text(value) => Emit(c, value)
    case Other => c
  }

  /** The nodes whose output wraps their children, rendered by a fresh call. */
  predicate Wraps(n: Node) {
    || (n.Category? && n.ordinal != []) || n.ExternalLink? || n.Heading? || n.Image?
    || n.Link? || n.Preformatted? || n.Tag?
  }

  /** What a wrapping node makes of its rendered children `t`. */
  function Wrap(n: Node, c: Ctx, t: string, doRefs: bool): Ctx
    requires Wraps(n)
  {
    match n
    case Category(target, _) => Emit(c, CategoryHtml(target, t))
    case ExternalLink(_) => Emit(c, ExternalLinkHtml(t))
    case Heading(level, _) => Emit(c, HeadingHtml(level, t))
    case Image(target, _) => Emit(c, ImageHtml(target, t))
    case Link(target, _) => Emit(c, LinkHtml(target, t))
    case Preformatted(_) => Emit(c, t + "\n")
    case Tag(name, _) =>
      if name == "ref" then
        if doRefs then
          c.(references := c.references + Footnote(c.currentRef, t),
             s := c.s + Anchor(c.currentRef),
             currentRef := c.currentRef + 1)
        else Emit(c, "<ref>" + t + "</ref>\n")
      else c
  }

  /** A node with nested content; every nested sequence is rendered by a
      fresh call with footnotes inline. */
  function RenderNested(n: Node, c: Ctx, doRefs: bool, env: Env): Result<Ctx, RenderError>
    requires Nested(n)
    decreases n, 1
  {
    if Wraps(n) then
      var children := match n
        case Category(_, ordinal) => ordinal
        case ExternalLink(nodes) => nodes
        case Heading(_, nodes) => nodes
        case Image(_, text) => text
        case Link(_, text) => text
        case Preformatted(nodes) => nodes
        case Tag(_, nodes) => nodes;
      var t :- Render(children, false, env);
      Ok(Wrap(n, c, t, doRefs))
    else
      match n
      case Category(target, _) => Ok(Emit(c, CategoryHtml(target, target)))
      case OrderedList(items) =>
        var t :- RenderItems(items, env); Ok(Emit(c, "<ol>\n" + t + "</ol>\n"))
      case Template(_, _) => RenderTemplate(n, c, env)
      case UnorderedList(items) =>
        var t :- RenderItems(items, env); Ok(Emit(c, "<ul>\n" + t + "</ul>\n"))
  }

  /** A template: its rendered name chooses the output, from the rendered
      parameters and the footnotes written so far. */
  function RenderTemplate(n: Node, c: Ctx, env: Env): Result<Ctx, RenderError>
    requires n.Template?
    decreases n, 0
  {
    var name :- Render(n.templateName, false, env);
    var pairs :- RenderParams(n.parameters, env);
    var out :- TemplateHtml(name, n.templateName, pairs, c.references, env);
    Ok(Emit(c, out))
  }

  /** The `<li>` elements of a list, one per item. */
  function RenderItems(items: seq<ListItem>, env: Env): Result<string, RenderError>
    decreases items
  {
    if items == [] then Ok("")
    else
      var init :- RenderItems(items[..|items| - 1], env);
      var t :- Render(items[|items| - 1].nodes, false, env);
      Ok(init + ("<li>" + t + "</li>\n"))
  }

  function RenderParam(p: Param, env: Env): Result<Pair, RenderError>
    decreases p, 0
  {
    match p.name
    case Unnamed =>
      var v :- Render(p.value, false, env); Ok(("", v))
    case Named(nameNodes) =>
      var name :- Render(nameNodes, false, env);
      var v :- Render(p.value, false, env);
      Ok((name, v))
  }

  /** `parse_parameters` */
  function RenderParams(params: seq<Param>, env: Env): Result<seq<Pair>, RenderError>
    decreases params
  {
    if params == [] then Ok([])
    else
      var init :- RenderParams(params[..|params| - 1], env);
      var p :- RenderParam(params[|params| - 1], env);
      Ok(init + [p])
  }

  lemma {:induction false} RenderItemsPrefixError(items: seq<ListItem>, k: nat, env: Env)
    requires k <= |items|
    requires RenderItems(items[..k], env).Err?
    ensures RenderItems(items, env) == RenderItems(items[..k], env)
    decreases |items| - k
  {
    if k < |items| {
      assert items[..k + 1][..k] == items[..k];
      RenderItemsPrefixError(items, k + 1, env);
    } else {
      assert items[..k] == items;
    }
  }

  lemma {:induction false} RenderParamsPrefixError(params: seq<Param>, k: nat, env: Env)
    requires k <= |params|
    requires RenderParams(params[..k], env).Err?
    ensures RenderParams(params, env) == RenderParams(params[..k], env)
    decreases |params| - k
  {
    if k < |params| {
      assert params[..k + 1][..k] == params[..k];
      RenderParamsPrefixError(params, k + 1, env);
    } else {
      assert params[..k] == params;
    }
  }

  // ---------------------------------------------------------------------
  // the methods

  /** `parse_nodes`: one pass over the nodes, each handled by
      `ParseNode` against the call's own state. */
  method ParseNodes(nodes: seq<Node>, doRefs: bool, env: Env) returns (r: Result<string, RenderError>)
    ensures r == Render(nodes, doRefs, env)
    decreases nodes, 1
  {
    var c := Fresh();
    for i := 0 to |nodes|
      invariant RenderSeq(nodes[i..], c, doRefs, env) == RenderSeq(nodes, Fresh(), doRefs, env)
    {
      assert nodes[i..][1..] == nodes[i + 1..];
      var next := ParseNode(nodes[i], c, doRefs, env);
      if next.Err? {
        return Err(next.error);
      }
      c := next.value;
    }
    r := Ok(c.s);
  }

  /** The body of the loop of `parse_nodes`: one node, appending to `s`
      and updating the toggles; the nodes with nested content are handled
      by `ParseNested`. */
  method ParseNode(node: Node, c: Ctx, doRefs: bool, env: Env) returns (r: Result<Ctx, RenderError>)
    ensures r == RenderNode(node, c, doRefs, env)
    decreases node, 1
  {
    if Nested(node) {
      r := ParseNested(node, c, doRefs, env);
      return;
    }
    var s, bold, italic, magicWord := c.s, c.bold, c.italic, c.magicWord;
    match node {
      case Bold =>
        bold := !bold;
        if bold { s := s + "<strong>"; } else { s := s + "</strong>"; }
      case BoldItalic =>
        bold := !bold;
        if bold { s := s + "<strong>"; } else { s := s + "</strong>"; }
        italic := !italic;
        if italic { s := s + "<em>"; } else { s := s + "</em>"; }
      case CharacterEntity(ch) =>
        s := s + [ch];
      case DefinitionList =>
      case EndTag(name) =>
        s := s + ("</" + name + ">\n");
      case HorizontalDivider =>
        s := s + "<hr>";
      case Italic =>
        italic := !italic;
        if italic { s := s + "<em>"; } else { s := s + "</em>"; }
      case MagicWord =>
        magicWord := !magicWord;
        if magicWord { s := s + "<magic>"; } else { s := s + "</magic>"; }
      case ParagraphBreak =>
        s := s + "<br><br>\n";
      case Parameter =>
      case Redirect(target) =>
        s := s + ("REDIRECT TO: " + target);
      case StartTag(name) =>
        s := s + ("<" + name + ">");
      case Table =>
      case Text(value) =>
        s := s + value;
      case Other =>
    }
    r := Ok(Ctx(s, bold, italic, magicWord, c.references, c.currentRef));
  }

  /** The arms of `parse_nodes` for nodes with nested content: each nested
      sequence is rendered by a fresh call, and an error there ends the
      whole call. */
  method ParseNested(node: Node, c: Ctx, doRefs: bool, env: Env) returns (r: Result<Ctx, RenderError>)
    requires Nested(node)
    ensures r == RenderNested(node, c, doRefs, env)
    decreases node, 0
  {
    var s, references, currentRef := c.s, c.references, c.currentRef;
    match node {
      case Category(target, ordinal) =>
        if ordinal == [] {
          s := s + CategoryHtml(target, target);
        } else {
          var t := ParseNodes(ordinal, false, env);
          if t.Err? { return Err(t.error); }
          s := s + CategoryHtml(target, t.value);
        }
      case ExternalLink(inner) =>
        var t := ParseNodes(inner, false, env);
        if t.Err? { return Err(t.error); }
        s := s + ExternalLinkHtml(t.value);
      case Heading(level, inner) =>
        var t := ParseNodes(inner, false, env);
        if t.Err? { return Err(t.error); }
        s := s + HeadingHtml(level, t.value);
      case Image(target, text) =>
        var t := ParseNodes(text, false, env);
        if t.Err? { return Err(t.error); }
        s := s + ImageHtml(target, t.value);
      case Link(target, text) =>
        var t := ParseNodes(text, false, env);
        if t.Err? { return Err(t.error); }
        s := s + LinkHtml(target, t.value);
      case OrderedList(items) =>
        var t := ParseListItems(items, env);
        if t.Err? { return Err(t.error); }
        s := s + ("<ol>\n" + t.value + "</ol>\n");
      case Preformatted(inner) =>
        var t := ParseNodes(inner, false, env);
        if t.Err? { return Err(t.error); }
        s := s + (t.value + "\n");
      case Tag(name, inner) =>
        var t := ParseNodes(inner, false, env);
        if t.Err? { return Err(t.error); }
        if name == "ref" {
          if doRefs {
            references := references + Footnote(currentRef, t.value);
            s := s + Anchor(currentRef);
            currentRef := currentRef + 1;
          } else {
            s := s + ("<ref>" + t.value + "</ref>\n");
          }
        }
      case Template(nameNodes, params) =>
        var name := ParseNodes(nameNodes, false, env);
        if name.Err? { return Err(name.error); }
        var pairs := ParseParameters(params, env);
        if pairs.Err? { return Err(pairs.error); }
        var out := TemplateBranch(name.value, nameNodes, pairs.value, references, env);
        if out.Err? { return Err(out.error); }
        s := s + out.value;
      case UnorderedList(items) =>
        var t := ParseListItems(items, env);
        if t.Err? { return Err(t.error); }
        s := s + ("<ul>\n" + t.value + "</ul>\n");
    }
    r := Ok(Ctx(s, c.bold, c.italic, c.magicWord, references, currentRef));
  }

  /** The template branch of `parse_nodes`, after the name and the
      parameters are rendered. */
  method TemplateBranch(name: string, nameNodes: seq<Node>, pairs: seq<Pair>, references: string, env: Env)
    returns (r: Result<string, RenderError>)
    ensures r == TemplateHtml(name, nameNodes, pairs, references, env)
  {
    var lower := ToLower(name);
    if lower == "reflist" {
      r := Ok("<ol>\n" + env.renderReflist(references) + "</ol>\n");
    } else if lower == "main" {
      r := Ok(MainHtml(pairs));
    } else if lower == "height" {
      r := Ok(HeightText(pairs));
    } else if lower == "convert" {
      if |pairs| < 4 {
        return Err(ConvertNeedsFourParameters(|pairs|));
      }
      r := Ok(Concat(Values(pairs[..4])));
    } else if lower == "clear" {
      r := Ok("<br><br>\n");
    } else if lower == "rp" {
      r := Ok(RpText(pairs));
    } else {
      var tab := SimpleTab(pairs);
      r := Ok(env.templateDebug(nameNodes) + ":<br> " + tab);
    }
  }

  /** The item loop of the two list branches of `parse_nodes`. */
  method ParseListItems(items: seq<ListItem>, env: Env) returns (r: Result<string, RenderError>)
    ensures r == RenderItems(items, env)
    decreases items, 2
  {
    var s := "";
    for k := 0 to |items|
      invariant RenderItems(items[..k], env) == Ok(s)
    {
      assert items[..k + 1][..k] == items[..k];
      var t := ParseNodes(items[k].nodes, false, env);
      if t.Err? {
        RenderItemsPrefixError(items, k + 1, env);
        return Err(t.error);
      }
      s := s + ("<li>" + t.value + "</li>\n");
    }
    assert items[..|items|] == items;
    r := Ok(s);
  }

  /** `parse_parameters`: one pair per parameter, in order. */
  method ParseParameters(params: seq<Param>, env: Env) returns (r: Result<seq<Pair>, RenderError>)
    ensures r == RenderParams(params, env)
    decreases params, 2
  {
    var pairs: seq<Pair> := [];
    for k := 0 to |params|
      invariant RenderParams(params[..k], env) == Ok(pairs)
    {
      assert params[..k + 1][..k] == params[..k];
      var p := params[k];
      var name := "";
      if p.name.Named? {
        var n := ParseNodes(p.name.nodes, false, env);
        if n.Err? {
          RenderParamsPrefixError(params, k + 1, env);
          return Err(n.error);
        }
        name := n.value;
      }
      var v := ParseNodes(p.value, false, env);
      if v.Err? {
        RenderParamsPrefixError(params, k + 1, env);
        return Err(v.error);
      }
      pairs := pairs + [(name, v.value)];
    }
    assert params[..|params|] == params;
    r := Ok(pairs);
  }

  /** `simple_tab`: each pair has its value made a link, then an image,
      where it qualifies, and becomes one `name: value<br>` row. */
  method SimpleTab(params: seq<Pair>) returns (s: string)
    ensures s == SimpleTabText(params)
  {
    s := "";
    for k := 0 to |params|
      invariant s == SimpleTabText(params[..k])
    {
      assert params[..k + 1][..k] == params[..k];
      var p := params[k];
      ghost var row := Row(p);
      if Linkable(p.1) {
        p := (p.0, LinkValue(p.1));
      }
      if Embeddable(p.0, p.1) {
        p := (p.0, "<img src=\"" + p.1 + "\"/>");
      }
      assert p.1 == Cell(params[k].0, params[k].1);
      s := s + (p.0 + ": " + p.1 + "<br>\n");
      assert s == SimpleTabText(params[..k]) + row;
    }
    assert params[..|params|] == params;
  }

  // ---------------------------------------------------------------------
  // one call is a fold

  /** Rendering two stretches of nodes in one call is rendering the second
      from the state the first left. */
  lemma {:induction false} RenderSeqAppend(a: seq<Node>, b: seq<Node>, c: Ctx, doRefs: bool, env: Env)
    ensures RenderSeq(a + b, c, doRefs, env)
      == match RenderSeq(a, c, doRefs, env) case Err(e) => Err(e) case Ok(mid) => RenderSeq(b, mid, doRefs, env)
    decreases |a|
  {
    if a == [] {
      assert a + b == b;
    } else {
      assert (a + b)[1..] == a[1..] + b;
      match RenderNode(a[0], c, doRefs, env)
      case Err(_) =>
      case Ok(c') => RenderSeqAppend(a[1..], b, c', doRefs, env);
    }
  }

  /** The output and the footnote buffer only grow, and the footnote
      counter never goes back. */
  lemma {:induction false} RenderSeqGrows(nodes: seq<Node>, c: Ctx, doRefs: bool, env: Env)
    requires RenderSeq(nodes, c, doRefs, env).Ok?
    ensures c.s <= RenderSeq(nodes, c, doRefs, env).value.s
    ensures c.references <= RenderSeq(nodes, c, doRefs, env).value.references
    ensures c.currentRef <= RenderSeq(nodes, c, doRefs, env).value.currentRef
    decreases |nodes|
  {
    if nodes != [] {
      NodeEffect(nodes[0], c, doRefs, env);
      RenderSeqGrows(nodes[1..], RenderNode(nodes[0], c, doRefs, env).value, doRefs, env);
    }
  }

  /** What one step of rendering a node does to the state: it appends to
      the output, flips the toggles the node names, and (only a `ref` tag
      with footnotes on) appends to the footnote buffer and advances the
      counter. */
  predicate Effect(n: Node, c: Ctx, c': Ctx, doRefs: bool) {
    && c.s <= c'.s
    && c.references <= c'.references
    && c'.currentRef == c.currentRef + (if doRefs && IsRef(n) then 1 else 0)
    && (!(doRefs && IsRef(n)) ==> c'.references == c.references)
    && c'.bold == (c.bold != Flips(n, BoldToggle))
    && c'.italic == (c.italic != Flips(n, ItalicToggle))
    && c'.magicWord == (c.magicWord != Flips(n, MagicToggle))
  }

  lemma NodeEffect(n: Node, c: Ctx, doRefs: bool, env: Env)
    requires RenderNode(n, c, doRefs, env).Ok?
    ensures Effect(n, c, RenderNode(n, c, doRefs, env).value, doRefs)
  {
    if Nested(n) {
      NestedEffect(n, c, doRefs, env);
    } else {
      FlatEffect(n, c, doRefs);
    }
  }

  /** A node without nested content only appends and flips its own toggles. */
  lemma FlatEffect(n: Node, c: Ctx, doRefs: bool)
    requires !Nested(n)
    ensures Effect(n, c, RenderFlat(n, c), doRefs)
  {
  }

  /** A node with nested content keeps the toggles, and only a `ref` tag
      with footnotes on touches the footnote buffer and the counter. */
  lemma NestedEffect(n: Node, c: Ctx, doRefs: bool, env: Env)
    requires Nested(n)
    requires RenderNested(n, c, doRefs, env).Ok?
    ensures Effect(n, c, RenderNested(n, c, doRefs, env).value, doRefs)
  {
    if Wraps(n) {
      forall t: string ensures Effect(n, c, Wrap(n, c, t, doRefs), doRefs) {
        WrapEffect(n, c, t, doRefs);
      }
    } else {
      match n {
        case Category(_, _) =>
        case OrderedList(_) =>
        case Template(_, _) =>
        case UnorderedList(_) =>
      }
    }
  }

  lemma WrapEffect(n: Node, c: Ctx, t: string, doRefs: bool)
    requires Wraps(n)
    ensures Effect(n, c, Wrap(n, c, t, doRefs), doRefs)
  {
    if n.Tag? && n.name == "ref" && doRefs {
      assert c.s <= c.s + Anchor(c.currentRef);
      assert c.references <= c.references + Footnote(c.currentRef, t);
    }
  }

  // ---------------------------------------------------------------------
  // toggles

  datatype Toggle = BoldToggle | ItalicToggle | MagicToggle

  /** Whether a node flips the toggle. */
  /** One node changes the flag `t` exactly when it is one of the markers for `t`. */
  lemma FlagStep(n: Node, c: Ctx, doRefs: bool, env: Env, t: Toggle)
    requires RenderNode(n, c, doRefs, env).Ok?
    ensures Flag(RenderNode(n, c, doRefs, env).value, t) == (Flag(c, t) != Flips(n, t))
  {
    NodeEffect(n, c, doRefs, env);
  }

  predicate Flips(n: Node, t: Toggle) {
    match t
    case BoldToggle => n.Bold? || n.BoldItalic?
    case ItalicToggle => n.Italic? || n.BoldItalic?
    case MagicToggle => n.MagicWord?
  }

  /** The number of nodes of one call that flip the toggle. */
  function Flipped(nodes: seq<Node>, t: Toggle): nat
    decreases |nodes|
  {
    if nodes == [] then 0
    else (if Flips(nodes[0], t) then 1 else 0) + Flipped(nodes[1..], t)
  }

  function Flag(c: Ctx, t: Toggle): bool {
    match t
    case BoldToggle => c.bold
    case ItalicToggle => c.italic
    case MagicToggle => c.magicWord
  }

  function Opening(t: Toggle): string {
    match t
    case BoldToggle => "<strong>"
    case ItalicToggle => "<em>"
    case MagicToggle => "<magic>"
  }

  function Closing(t: Toggle): string {
    match t
    case BoldToggle => "</strong>"
    case ItalicToggle => "</em>"
    case MagicToggle => "</magic>"
  }

  /** The tag the k-th flip of a call emits, counting from 0: opening tags
      and closing tags take turns. */
  function Mark(t: Toggle, k: nat): string {
    if k % 2 == 0 then Opening(t) else Closing(t)
  }

  /** Each toggle is on exactly when an odd number of nodes has flipped it
      since the state the call started from. */
  lemma {:induction false} ToggleParity(nodes: seq<Node>, c: Ctx, doRefs: bool, env: Env, t: Toggle)
    requires RenderSeq(nodes, c, doRefs, env).Ok?
    ensures Flag(RenderSeq(nodes, c, doRefs, env).value, t) == (Flag(c, t) != (Flipped(nodes, t) % 2 == 1))
    decreases |nodes|
  {
    if nodes != [] {
      var c' := RenderNode(nodes[0], c, doRefs, env).value;
      assert RenderSeq(nodes, c, doRefs, env) == RenderSeq(nodes[1..], c', doRefs, env);
      FlagStep(nodes[0], c, doRefs, env, t);
      ToggleParity(nodes[1..], c', doRefs, env, t);
      ParityStep(Flips(nodes[0], t), Flipped(nodes[1..], t));
    }
  }

  lemma ParityStep(b: bool, n: nat)
    ensures (((if b then 1 else 0) + n) % 2 == 1) == (b != (n % 2 == 1))
  {
  }

  /** In one call, the flips of a toggle emit `Mark(t, 0)`, `Mark(t, 1)`,
      ... in order: a `Bold`, `Italic` or `MagicWord` node emits the mark of
      its own toggle, and a `BoldItalic` node the bold mark and then the
      italic mark. */
  lemma ToggleAlternates(nodes: seq<Node>, k: nat, doRefs: bool, env: Env)
    requires k < |nodes| && (nodes[k].Bold? || nodes[k].Italic? || nodes[k].MagicWord? || nodes[k].BoldItalic?)
    requires RenderSeq(nodes[..k], Fresh(), doRefs, env).Ok?
    ensures var mid := RenderSeq(nodes[..k], Fresh(), doRefs, env).value;
      && RenderNode(nodes[k], mid, doRefs, env).Ok?
      && RenderNode(nodes[k], mid, doRefs, env).value.s == mid.s +
        match nodes[k]
        case Bold => Mark(BoldToggle, Flipped(nodes[..k], BoldToggle))
        case Italic => Mark(ItalicToggle, Flipped(nodes[..k], ItalicToggle))
        case MagicWord => Mark(MagicToggle, Flipped(nodes[..k], MagicToggle))
        case _ => (Mark(BoldToggle, Flipped(nodes[..k], BoldToggle))
          + Mark(ItalicToggle, Flipped(nodes[..k], ItalicToggle)))
  {
    var pre := nodes[..k];
    var mid := RenderSeq(pre, Fresh(), doRefs, env).value;
    assert Mark(BoldToggle, Flipped(pre, BoldToggle)) == Mark(BoldToggle, Bit(mid.bold)) by {
      ToggleParity(pre, Fresh(), doRefs, env, BoldToggle);
    }
    assert Mark(ItalicToggle, Flipped(pre, ItalicToggle)) == Mark(ItalicToggle, Bit(mid.italic)) by {
      ToggleParity(pre, Fresh(), doRefs, env, ItalicToggle);
    }
    assert Mark(MagicToggle, Flipped(pre, MagicToggle)) == Mark(MagicToggle, Bit(mid.magicWord)) by {
      ToggleParity(pre, Fresh(), doRefs, env, MagicToggle);
    }
    assert RenderNode(nodes[k], mid, doRefs, env) == Ok(RenderFlat(nodes[k], mid));
    ToggleStep(nodes[k], mid);
  }

  function Bit(b: bool): nat {
    if b then 1 else 0
  }

  /** A toggle node emits the opening mark of its toggle when the toggle
      was off and the closing mark when it was on. */
  lemma ToggleStep(n: Node, c: Ctx)
    requires n.Bold? || n.Italic? || n.MagicWord? || n.BoldItalic?
    ensures RenderFlat(n, c).s == c.s +
      match n
      case Bold => Mark(BoldToggle, Bit(c.bold))
      case Italic => Mark(ItalicToggle, Bit(c.italic))
      case MagicWord => Mark(MagicToggle, Bit(c.magicWord))
      case _ => Mark(BoldToggle, Bit(c.bold)) + Mark(ItalicToggle, Bit(c.italic))
  {
    if n.BoldItalic? {
      var b := Mark(BoldToggle, Bit(c.bold));
      var i := Mark(ItalicToggle, Bit(c.italic));
      assert ToggleBold(c).s == c.s + b;
      assert (c.s + b) + i == c.s + (b + i);
    }
  }

  // ---------------------------------------------------------------------
  // footnotes

  predicate IsRef(n: Node) {
    n.Tag? && n.name == "ref"
  }

  /** The number of `ref` tags among the nodes of one call. */
  function RefCount(nodes: seq<Node>): nat
    decreases |nodes|
  {
    if nodes == [] then 0
    else (if IsRef(nodes[0]) then 1 else 0) + RefCount(nodes[1..])
  }

  /** With footnotes on, the counter advances once per `ref` tag of the
      call; with them off (every nested call), neither the counter nor the
      footnote buffer changes. */
  lemma {:induction false} FootnoteCount(nodes: seq<Node>, c: Ctx, doRefs: bool, env: Env)
    requires RenderSeq(nodes, c, doRefs, env).Ok?
    ensures RenderSeq(nodes, c, doRefs, env).value.currentRef
      == c.currentRef + (if doRefs then RefCount(nodes) else 0)
    ensures !doRefs ==> RenderSeq(nodes, c, doRefs, env).value.references == c.references
    decreases |nodes|
  {
    if nodes != [] {
      NodeEffect(nodes[0], c, doRefs, env);
      FootnoteCount(nodes[1..], RenderNode(nodes[0], c, doRefs, env).value, doRefs, env);
    }
  }

  /** With footnotes on, the `ref` tag after k earlier ones is footnote
      k + 1: its anchor, numbered k + 1, follows what the nodes before it
      wrote and stays in the final output, and its entry, with the same
      number and the rendered content, is added to the footnote buffer. */
  lemma FootnoteNumbering(nodes: seq<Node>, k: nat, env: Env)
    requires k < |nodes| && IsRef(nodes[k])
    requires Render(nodes, true, env).Ok?
    ensures RenderSeq(nodes[..k], Fresh(), true, env).Ok?
    ensures Render(nodes[k].nodes, false, env).Ok?
    ensures var mid := RenderSeq(nodes[..k], Fresh(), true, env).value;
      var n := RefCount(nodes[..k]) + 1;
      && mid.currentRef == n
      && RenderNode(nodes[k], mid, true, env)
         == Ok(mid.(s := mid.s + Anchor(n),
                    references := mid.references + Footnote(n, Render(nodes[k].nodes, false, env).value),
                    currentRef := n + 1))
      && mid.s + Anchor(n) <= Render(nodes, true, env).value
  {
    var pre := nodes[..k];
    var post := nodes[k + 1..];
    assert nodes == pre + ([nodes[k]] + post);
    RenderSeqAppend(pre, [nodes[k]] + post, Fresh(), true, env);
    var mid := RenderSeq(pre, Fresh(), true, env).value;
    assert ([nodes[k]] + post)[1..] == post;
    FootnoteCount(pre, Fresh(), true, env);
    assert RenderNode(nodes[k], mid, true, env) == RenderNested(nodes[k], mid, true, env);
    var after := RenderNode(nodes[k], mid, true, env).value;
    RenderSeqGrows(post, after, true, env);
  }

  /** Whether footnotes are on only matters for the `ref` tags of the call
      itself. */
  lemma {:induction false} FootnoteModeOnlyForRefs(nodes: seq<Node>, c: Ctx, env: Env)
    requires RefCount(nodes) == 0
    ensures RenderSeq(nodes, c, true, env) == RenderSeq(nodes, c, false, env)
    decreases |nodes|
  {
    if nodes != [] {
      NodeModeOnlyForRefs(nodes[0], c, env);
      match RenderNode(nodes[0], c, true, env)
      case Err(_) =>
      case Ok(c') => FootnoteModeOnlyForRefs(nodes[1..], c', env);
    }
  }

  lemma NodeModeOnlyForRefs(n: Node, c: Ctx, env: Env)
    requires !IsRef(n)
    ensures RenderNode(n, c, true, env) == RenderNode(n, c, false, env)
  {
  }

  // ---------------------------------------------------------------------
  // lists, links and images

  function ItemHtml(content: string): string {
    "<li>" + content + "</li>\n"
  }

  /** The `<li>` elements for already rendered items, in order. */
  function Bullets(rendered: seq<string>): string
    decreases |rendered|
  {
    if rendered == [] then ""
    else Bullets(rendered[..|rendered| - 1]) + ItemHtml(rendered[|rendered| - 1])
  }

  /** One step of `RenderItems`: the last item is rendered after the others. */
  lemma RenderItemsLast(items: seq<ListItem>, env: Env)
    requires items != []
    ensures RenderItems(items, env).Ok?
      <==> RenderItems(items[..|items| - 1], env).Ok? && Render(items[|items| - 1].nodes, false, env).Ok?
    ensures RenderItems(items, env).Ok? ==>
      RenderItems(items, env).value
      == RenderItems(items[..|items| - 1], env).value + ItemHtml(Render(items[|items| - 1].nodes, false, env).value)
  {
  }

  /** A list renders exactly when every item renders. */
  lemma {:induction false} ListItemsRender(items: seq<ListItem>, env: Env)
    ensures RenderItems(items, env).Ok? <==> forall i :: 0 <= i < |items| ==> Render(items[i].nodes, false, env).Ok?
    decreases |items|
  {
    if items != [] {
      var init := items[..|items| - 1];
      ListItemsRender(init, env);
      RenderItemsLast(items, env);
      assert forall i :: 0 <= i < |init| ==> init[i] == items[i];
    }
  }

  /** The items rendered one by one, each by a fresh call. */
  function RenderedItems(items: seq<ListItem>, env: Env): (rendered: seq<string>)
    requires forall i :: 0 <= i < |items| ==> Render(items[i].nodes, false, env).Ok?
    ensures |rendered| == |items|
    ensures forall i :: 0 <= i < |items| ==> Ok(rendered[i]) == Render(items[i].nodes, false, env)
  {
    seq(|items|, i requires 0 <= i < |items| => Render(items[i].nodes, false, env).value)
  }

  /** A list that renders has one `<li>` element per item, in order, each
      holding that item rendered by a fresh call. */
  lemma {:induction false} ListItemsOnePerItem(items: seq<ListItem>, env: Env)
    requires RenderItems(items, env).Ok?
    ensures forall i :: 0 <= i < |items| ==> Render(items[i].nodes, false, env).Ok?
    ensures RenderItems(items, env).value == Bullets(RenderedItems(items, env))
    decreases |items|
  {
    ListItemsRender(items, env);
    if items != [] {
      var n := |items| - 1;
      var init := items[..n];
      RenderItemsLast(items, env);
      ListItemsOnePerItem(init, env);
      var rs := RenderedItems(items, env);
      assert rs[..n] == RenderedItems(init, env) by {
        forall i | 0 <= i < n ensures rs[i] == RenderedItems(init, env)[i] {
          assert init[i] == items[i];
        }
      }
    }
  }

  /** A category links to its target; the label is the rendered ordinal,
      or the target itself when the ordinal is empty. */
  lemma CategoryLabel(target: string, ordinal: seq<Node>, c: Ctx, doRefs: bool, env: Env)
    ensures ordinal == [] ==>
      RenderNode(Category(target, ordinal), c, doRefs, env) == Ok(c.(s := c.s + CategoryHtml(target, target)))
    ensures ordinal != [] && Render(ordinal, false, env).Ok? ==>
      RenderNode(Category(target, ordinal), c, doRefs, env)
        == Ok(c.(s := c.s + CategoryHtml(target, Render(ordinal, false, env).value)))
  {
    var n := Category(target, ordinal);
    assert RenderNode(n, c, doRefs, env) == RenderNested(n, c, doRefs, env);
  }

  /** An external link whose content has no whitespace links to the whole
      content and shows the whole content: the removal of `href + " "`
      then finds nothing. */
  lemma ExternalLinkBare(content: string)
    requires NoWhitespace(content)
    ensures ExternalLinkHtml(content) == "<a href=\"" + content + "\">" + content + "</a>"
  {
    FirstWordOfWord(content);
    ReplaceAbsent(content, content + " ", "");
  }

  /** The usual form, a URL, a space and a label, links to the URL and
      shows the label, as long as the label does not itself repeat the URL
      followed by a space (for "http://example.com Example" the label is
      "Example"). */
  lemma ExternalLinkUsual(url: string, text: string)
    requires url != [] && NoWhitespace(url)
    requires !Contains(text, url + " ")
    ensures ExternalLinkHtml(url + " " + text) == "<a href=\"" + url + "\">" + text + "</a>"
  {
    var t := url + " " + text;
    assert ExternalHref(t) == url by {
      assert t == url + (" " + text);
      assert t[0] == url[0];
      assert SkipWhitespace(t) == t;
      TakeWordSplit(url, " " + text);
    }
    var pat := url + " ";
    assert ReplaceAll(t, pat, "") == text by {
      assert |t| >= |pat| && t[..|pat|] == pat && t[|pat|..] == text;
      ReplaceAbsent(text, pat, "");
    }
  }

  lemma {:induction false} TakeWordSplit(w: string, rest: string)
    requires NoWhitespace(w)
    requires rest != [] && IsWhitespace(rest[0])
    ensures TakeWord(w + rest) == w
    decreases |w|
  {
    if w == [] {
      assert w + rest == rest;
    } else {
      assert (w + rest)[1..] == w[1..] + rest;
      TakeWordSplit(w[1..], rest);
      assert [w[0]] + w[1..] == w;
    }
  }

  // ---------------------------------------------------------------------
  // templates

  /** The template names are matched whatever their case: two names that
      lowercase alike and name a known template give the same output. */
  lemma TemplateIgnoresCase(a: string, b: string, nameNodes: seq<Node>, pairs: seq<Pair>, references: string, env: Env)
    requires ToLower(a) == ToLower(b)
    requires ToLower(a) in {"reflist", "main", "height", "convert", "clear", "rp"}
    ensures TemplateHtml(a, nameNodes, pairs, references, env) == TemplateHtml(b, nameNodes, pairs, references, env)
  {
  }

  lemma ReflistAnyCase(nameNodes: seq<Node>, pairs: seq<Pair>, references: string, env: Env)
    ensures TemplateHtml("Reflist", nameNodes, pairs, references, env)
      == TemplateHtml("REFLIST", nameNodes, pairs, references, env)
      == Ok("<ol>\n" + env.renderReflist(references) + "</ol>\n")
  {
    assert ToLower("Reflist") == "reflist";
    assert ToLower("REFLIST") == "reflist";
  }

  /** `{{main}}` uses the first parameter's value alone, as both the
      target and the label of the link; without parameters it writes
      nothing. */
  lemma MainLinksFirstValue(pairs: seq<Pair>, name: string, rest: seq<Pair>)
    ensures pairs == [] ==> MainHtml(pairs) == ""
    ensures pairs != [] ==>
      var u := pairs[0].1;
      OccursAt(MainHtml(pairs), "<a href=\"/" + u + "\">" + u + "</a>", 26)
    ensures pairs != [] ==> MainHtml(pairs) == MainHtml([(name, pairs[0].1)] + rest)
  {
    if pairs != [] {
      var u := pairs[0].1;
      var pre := "<em>See the main article: ";
      var link := "<a href=\"/" + u + "\">" + u + "</a>";
      var post := "</em><br><br>\n";
      assert |pre| == 26;
      assert (pre + link + post)[26..26 + |link|] == link;
    }
  }

  /** `{{height}}` reverses the parameter order: the text of a
      concatenation is the text of the second part followed by that of the
      first, and one parameter gives its value then its name. */
  lemma {:induction false} HeightReverses(a: seq<Pair>, b: seq<Pair>)
    ensures HeightText(a + b) == HeightText(b) + HeightText(a)
    decreases |a|
  {
    if a == [] {
      assert a + b == b;
    } else {
      assert (a + b)[1..] == a[1..] + b;
      HeightReverses(a[1..], b);
    }
  }

  lemma HeightSingle(p: Pair)
    ensures HeightText([p]) == p.1 + p.0
  {
    assert [p][1..] == [];
  }

  /** The `{{rp}}` superscript gives its values back when split at spaces,
      provided no value holds a space. */
  lemma RpValuesRecoverable(pairs: seq<Pair>)
    requires |pairs| >= 1
    requires forall i :: 0 <= i < |pairs| ==> Free(pairs[i].1, ' ')
    ensures var r := RpText(pairs);
      && r[..6] == "<sup>:" && r[|r| - 6..] == "</sup>"
      && Split(r[6..|r| - 6], ' ') == Values(pairs)
  {
    var j := JoinWith(Values(pairs), " ");
    assert RpText(pairs)[6..|RpText(pairs)| - 6] == j;
    SplitJoin(Values(pairs), ' ');
  }

  /** `parse_parameters` gives one pair per parameter, in order: the
      rendered name (empty when there is none) and the rendered value. */
  lemma {:induction false} ParamsOnePairEach(params: seq<Param>, env: Env)
    requires RenderParams(params, env).Ok?
    ensures |RenderParams(params, env).value| == |params|
    ensures forall i :: 0 <= i < |params| ==> PairOf(params[i], RenderParams(params, env).value[i], env)
    decreases |params|
  {
    if params != [] {
      var n := |params| - 1;
      var init := params[..n];
      RenderParamsLast(params, env);
      ParamsOnePairEach(init, env);
      ParamPair(params[n], env);
      var r := RenderParams(params, env).value;
      var ri := RenderParams(init, env).value;
      forall i | 0 <= i < |params| ensures PairOf(params[i], r[i], env) {
        if i < n {
          assert params[i] == init[i] && r[i] == ri[i];
        }
      }
    }
  }

  /** The pair of a parameter: its rendered name (empty when unnamed) and
      its rendered value, each from a fresh call. */
  predicate PairOf(p: Param, pair: Pair, env: Env) {
    && (p.name.Unnamed? ==> pair.0 == "")
    && (p.name.Named? ==> Render(p.name.nodes, false, env) == Ok(pair.0))
    && Render(p.value, false, env) == Ok(pair.1)
  }

  lemma ParamPair(p: Param, env: Env)
    requires RenderParam(p, env).Ok?
    ensures PairOf(p, RenderParam(p, env).value, env)
  {
  }

  /** One step of `RenderParams`: the last parameter is rendered after the others. */
  lemma RenderParamsLast(params: seq<Param>, env: Env)
    requires params != []
    ensures RenderParams(params, env).Ok?
      <==> RenderParams(params[..|params| - 1], env).Ok? && RenderParam(params[|params| - 1], env).Ok?
    ensures RenderParams(params, env).Ok? ==>
      RenderParams(params, env).value
      == RenderParams(params[..|params| - 1], env).value + [RenderParam(params[|params| - 1], env).value]
  {
  }

  // ---------------------------------------------------------------------
  // simple_tab

  /** The table of a concatenation is the two tables one after the other;
      with `SimpleTabSingle`, the table has exactly one row per pair, in
      order. */
  lemma {:induction false} SimpleTabAppend(a: seq<Pair>, b: seq<Pair>)
    ensures SimpleTabText(a + b) == SimpleTabText(a) + SimpleTabText(b)
    decreases |b|
  {
    if b == [] {
      assert a + b == a;
    } else {
      var bi := b[..|b| - 1];
      var last := Row(b[|b| - 1]);
      var x, y := SimpleTabText(a), SimpleTabText(bi);
      calc {
        SimpleTabText(a + b);
      == { assert (a + b)[..|a + b| - 1] == a + bi;
           assert (a + b)[|a + b| - 1] == b[|b| - 1]; }
        SimpleTabText(a + bi) + last;
      == { SimpleTabAppend(a, bi); }
        (x + y) + last;
      ==
        x + (y + last);
      }
    }
  }

  lemma SimpleTabSingle(p: Pair)
    ensures SimpleTabText([p]) == Row(p)
  {
    assert [p][..0] == [];
  }

  /** A cell always shows its value: the value stands in the cell, bare or
      inside the link and image markup. */
  lemma CellKeepsValue(name: string, value: string)
    ensures Contains(Cell(name, value), value)
  {
    var linked := if Linkable(value) then LinkValue(value) else value;
    var at: nat := 0;
    if Linkable(value) {
      LinkShowsValue(value);
      at := 9;
    } else {
      assert OccursAt(value, value, 0);
    }
    var cell := Cell(name, value);
    var at': nat := at;
    if Embeddable(name, linked) {
      ImageShowsSource(linked);
      OccursWithin(cell, linked, value, 10, at);
      at' := 10 + at;
    }
    assert OccursAt(cell, value, at');
    ContainsOccurs(cell, value);
  }

  lemma LinkShowsValue(v: string)
    ensures OccursAt(LinkValue(v), v, 9)
  {
    assert LinkValue(v)[9..9 + |v|] == v;
  }

  lemma ImageShowsSource(v: string)
    ensures OccursAt("<img src=\"" + v + "\"/>", v, 10)
  {
    assert ("<img src=\"" + v + "\"/>")[10..10 + |v|] == v;
  }

  /** An occurrence inside an occurrence. */
  lemma OccursWithin(s: string, t: string, u: string, i: nat, j: nat)
    requires OccursAt(s, t, i) && OccursAt(t, u, j)
    ensures OccursAt(s, u, i + j)
  {
    var w := s[i..i + |t|];
    assert w == t;
    forall k | 0 <= k < |u| ensures s[i + j..i + j + |u|][k] == u[k] {
      assert s[i + j + k] == w[j + k] == t[j + k];
      assert t[j..j + |u|][k] == u[k];
    }
    assert s[i + j..i + j + |u|] == u;
  }

  /** A value that is neither a URL nor an image source, in a row not named
      `image`, is shown as it is. */
  lemma CellPlain(name: string, value: string)
    requires !Contains(value, "http://") && !Contains(value, "https://")
    requires name != "image" && !Contains(ToLower(value), ".jpg") && !Contains(ToLower(value), ".png")
    ensures Cell(name, value) == value
  {
  }

  /** A row named `image` is embedded whatever its value, the value being
      made a link first when it is a bare URL. */
  lemma ImageCell(value: string)
    ensures Cell("image", value)
      == "<img src=\"" + (if Linkable(value) then LinkValue(value) else value) + "\"/>"
  {
  }

  /** Any other row shows a plain value as it is. */
  lemma PlainRow(name: string, value: string)
    requires !Contains(value, "http://") && !Contains(value, "https://")
    requires name != "image" && !Contains(ToLower(value), ".jpg") && !Contains(ToLower(value), ".png")
    ensures Row((name, value)) == name + ": " + value + "<br>\n"
  {
    CellPlain(name, value);
  }
}
