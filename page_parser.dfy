/** Page records and their reconstruction from the XML of one decompressed
    block (src/lib.rs, `Page` and `get_pages_from_string`).  The XML
    tokenizer is not modelled: its output is given as a sequence of
    events, with whitespace-only text already trimmed away, and a tokenizer
    failure is an `XmlFailure` event.  HTML entity decoding of the article
    body is a parameter. */
module PageParsing {
  import opened Wrappers
  import opened Strings

  // ---------------------------------------------------------------------
  // records

  /** `PageText`: the `<text>` element, its two attributes and its body. */
  datatype PageText = PageText(bytes: nat, sha1: string, text: string)

  datatype Contributor = Contributor(username: string, id: nat, ip: string)

  datatype Revision = Revision(
    id: nat,
    parentId: nat,
    timestamp: string,
    contributor: Contributor,
    comment: string,
    origin: nat,
    model: string,
    format: string,
    text: PageText,
    sha1: string)

  datatype Page = Page(
    title: string,
    redirect: string,
    namespace: nat,
    id: nat,
    revision: Revision)

  /** `Page::new`: every string empty, every number 0. */
  function NewPage(): Page {
    Page("", "", 0, 0,
      Revision(0, 0, "", Contributor("", 0, ""), "", 0, "", "", PageText(0, "", ""), ""))
  }

  /** `get_wikitext_fmt`: a level-1 heading with the title, the timestamp
      in italics, a horizontal rule, then the wikitext itself. */
  function WikitextFmt(p: Page): (r: string)
    ensures |r| == |p.title| + |p.revision.timestamp| + |p.revision.text.text| + 16
    ensures r[1..1 + |p.title|] == p.title
    ensures r[|r| - |p.revision.text.text|..] == p.revision.text.text
  {
    "=" + p.title + "= \n\n''" + p.revision.timestamp + "''\n-----\n" + p.revision.text.text
  }

  // ---------------------------------------------------------------------
  // events

  /** An attribute as the tokenizer's attribute iterator yields it; a
      malformed one is skipped by every loop over attributes. */
  datatype Attribute = Attribute(key: string, value: string) | MalformedAttribute

  /** The reader's events.  `Other` stands for the kinds the loop ignores
      (comments, CDATA, declarations, processing instructions, doctype). */
  datatype Event =
    | Start(name: string, attributes: seq<Attribute>)
    | Empty(name: string, attributes: seq<Attribute>)
    | Text(content: string)
    | End(name: string)
    | Eof
    | Other
    | XmlFailure(position: nat)

  /** The aborts of `get_pages_from_string`: a tokenizer error, a `bytes`
      attribute that is not a u64, a numeric element that is not a u64. */
  datatype ParseError =
    | XmlError(position: nat)
    | BadTextBytes(value: string)
    | BadNumber(tag: string, text: string)

  // ---------------------------------------------------------------------
  // the nesting code

  /** `parent_node: i8`: -1 before the first page, 0 page, 1 revision,
      2 contributor. */
  newtype i8 = x: int | -128 <= x < 128

  /** `parent_node -= 1` with the two's-complement wrap-around of a release
      build (a debug build aborts instead on -128). */
  function Decrement(x: i8): (r: i8)
    ensures (r as int - (x as int - 1)) % 256 == 0
  {
    if x == -128 then 127 else x - 1
  }

  // ---------------------------------------------------------------------
  // the pieces of one step

  /** One attribute of `<text>`: `bytes` is parsed as a u64 (an abort
      when it is not one), `sha1` is kept verbatim, any other key and a
      malformed attribute are ignored. */
  function TextAttribute(t: PageText, a: Attribute): (r: Result<PageText, ParseError>)
    ensures r.Err? <==> BadBytes(a)
    ensures r.Err? ==> r.error == BadTextBytes(a.value)
    ensures r.Ok? ==> r.value.text == t.text
    ensures r.Ok? && Keyed(a, "bytes") ==> ParseU64(a.value) == Some(r.value.bytes)
    ensures r.Ok? && !Keyed(a, "bytes") ==> r.value.bytes == t.bytes
    ensures r.Ok? && Keyed(a, "sha1") ==> r.value.sha1 == a.value
    ensures r.Ok? && !Keyed(a, "sha1") ==> r.value.sha1 == t.sha1
  {
    match a
    case MalformedAttribute => Ok(t)
    case Attribute(key, value) =>
      if key == "bytes" then
        match ParseU64(value)
        case None => Err(BadTextBytes(value))
        case Some(n) => Ok(t.(bytes := n))
      else if key == "sha1" then Ok(t.(sha1 := value))
      else Ok(t)
  }

  /** The attribute loop of `<text>`, over the attributes in order. */
  function TextAttributes(t: PageText, attrs: seq<Attribute>): Result<PageText, ParseError>
    decreases |attrs|
  {
    if attrs == [] then Ok(t)
    else
      var t' :- TextAttributes(t, attrs[..|attrs| - 1]);
      TextAttribute(t', attrs[|attrs| - 1])
  }

  /** The attribute loop of `<redirect/>`: every well-formed attribute,
      whatever its key, overwrites the redirect target. */
  function RedirectTarget(current: string, attrs: seq<Attribute>): string
    decreases |attrs|
  {
    if attrs == [] then current
    else
      var before := RedirectTarget(current, attrs[..|attrs| - 1]);
      match attrs[|attrs| - 1]
      case MalformedAttribute => before
      case Attribute(_, value) => value
  }

  function Number(tag: string, text: string): Result<nat, ParseError> {
    match ParseU64(text)
    case None => Err(BadNumber(tag, text))
    case Some(n) => Ok(n)
  }

  /** A text event directly inside `<page>`. */
  function RoutePageText(page: Page, tag: string, text: string, decode: string -> string)
    : (r: Result<Page, ParseError>)
    ensures Routed(0, tag).None? ==> r == Ok(page)
    ensures r.Err? <==> Routed(0, tag).Some? && Numeric(Routed(0, tag).value) && ParseU64(text).None?
    ensures r.Err? ==> r.error == BadNumber(tag, text)
    ensures r.Ok? && Routed(0, tag).Some? ==>
      r.value == Put(page, Routed(0, tag).value, FieldValue(Routed(0, tag).value, text, decode))
  {
    if tag == "title" then Ok(page.(title := text))
    else if tag == "ns" then var n :- Number(tag, text); Ok(page.(namespace := n))
    else if tag == "id" then var n :- Number(tag, text); Ok(page.(id := n))
    else Ok(page)
  }

  /** A text event inside `<revision>` (and outside `<contributor>`); the
      article body is entity-decoded. */
  function RouteRevisionText(page: Page, tag: string, text: string, decode: string -> string)
    : (r: Result<Page, ParseError>)
    ensures Routed(1, tag).None? ==> r == Ok(page)
    ensures r.Err? <==> Routed(1, tag).Some? && Numeric(Routed(1, tag).value) && ParseU64(text).None?
    ensures r.Err? ==> r.error == BadNumber(tag, text)
    ensures r.Ok? && Routed(1, tag).Some? ==>
      r.value == Put(page, Routed(1, tag).value, FieldValue(Routed(1, tag).value, text, decode))
  {
    var rev := page.revision;
    if tag == "id" then
      assert Routed(1, tag) == Some(RevisionId);
      var n :- Number(tag, text); Ok(page.(revision := rev.(id := n)))
    else if tag == "parentId" then
      assert Routed(1, tag) == Some(ParentId);
      var n :- Number(tag, text); Ok(page.(revision := rev.(parentId := n)))
    else if tag == "timestamp" then
      assert Routed(1, tag) == Some(Timestamp);
      Ok(page.(revision := rev.(timestamp := text)))
    else if tag == "comment" then
      assert Routed(1, tag) == Some(Comment);
      Ok(page.(revision := rev.(comment := text)))
    else if tag == "origin" then
      assert Routed(1, tag) == Some(Origin);
      var n :- Number(tag, text); Ok(page.(revision := rev.(origin := n)))
    else RouteRevisionRest(page, tag, text, decode)
  }

  /** The string-valued tags of `<revision>` after `origin`, and the
      article body. */
  function RouteRevisionRest(page: Page, tag: string, text: string, decode: string -> string)
    : (r: Result<Page, ParseError>)
    requires tag != "id" && tag != "parentId" && tag != "timestamp" && tag != "comment" && tag != "origin"
    ensures Routed(1, tag).None? ==> r == Ok(page)
    ensures r.Ok?
    ensures Routed(1, tag).Some? ==>
      r.value == Put(page, Routed(1, tag).value, FieldValue(Routed(1, tag).value, text, decode))
  {
    var rev := page.revision;
    if tag == "model" then
      assert Routed(1, tag) == Some(Model);
      Ok(page.(revision := rev.(model := text)))
    else if tag == "format" then
      assert Routed(1, tag) == Some(Format);
      Ok(page.(revision := rev.(format := text)))
    else if tag == "text" then
      assert Routed(1, tag) == Some(Body);
      Ok(page.(revision := rev.(text := rev.text.(text := decode(text)))))
    else if tag == "sha1" then
      assert Routed(1, tag) == Some(RevisionSha1);
      Ok(page.(revision := rev.(sha1 := text)))
    else
      assert Routed(1, tag) == None;
      Ok(page)
  }

  /** A text event inside `<contributor>`. */
  function RouteContributorText(page: Page, tag: string, text: string, decode: string -> string)
    : (r: Result<Page, ParseError>)
    ensures Routed(2, tag).None? ==> r == Ok(page)
    ensures r.Err? <==> Routed(2, tag).Some? && Numeric(Routed(2, tag).value) && ParseU64(text).None?
    ensures r.Err? ==> r.error == BadNumber(tag, text)
    ensures r.Ok? && Routed(2, tag).Some? ==>
      r.value == Put(page, Routed(2, tag).value, FieldValue(Routed(2, tag).value, text, decode))
  {
    var con := page.revision.contributor;
    if tag == "username" then Ok(page.(revision := page.revision.(contributor := con.(username := text))))
    else if tag == "id" then var n :- Number(tag, text); Ok(page.(revision := page.revision.(contributor := con.(id := n))))
    else if tag == "ip" then Ok(page.(revision := page.revision.(contributor := con.(ip := text))))
    else Ok(page)
  }

  /** A text event, routed by the nesting code and the last leaf tag: it
      fills the one field the routing table names and nothing else.  A
      numeric field gets the u64 the text spells (an abort when it spells
      none), the article body the decoded text, any other field the text
      verbatim; outside the table the page is unchanged. */
  function RouteText(page: Page, node: i8, tag: string, text: string, decode: string -> string)
    : (r: Result<Page, ParseError>)
    ensures Routed(node, tag).None? ==> r == Ok(page)
    ensures r.Err? <==> Routed(node, tag).Some? && Numeric(Routed(node, tag).value) && ParseU64(text).None?
    ensures r.Err? ==> r.error == BadNumber(tag, text)
    ensures r.Ok? && Routed(node, tag).Some? ==>
      r.value == Put(page, Routed(node, tag).value, FieldValue(Routed(node, tag).value, text, decode))
  {
    if node == 0 then RoutePageText(page, tag, text, decode)
    else if node == 1 then RouteRevisionText(page, tag, text, decode)
    else if node == 2 then RouteContributorText(page, tag, text, decode)
    else Ok(page)
  }

  // ---------------------------------------------------------------------
  // the state machine

  /** The loop's variables: `parent_node`, `parent_tag`, the scratch page
      and the pages finished so far. */
  datatype State = State(parentNode: i8, parentTag: string, page: Page, pages: seq<Page>)

  function Initial(): State {
    State(-1, "", NewPage(), [])
  }

  /** One event other than `Eof`. */
  function Step(st: State, e: Event, decode: string -> string): Result<State, ParseError> {
    match e
    case Start(name, attrs) =>
      if name == "page" then Ok(st.(parentNode := 0))
      else if name == "revision" then Ok(st.(parentNode := 1))
      else if name == "contributor" then Ok(st.(parentNode := 2))
      else if name == "text" then
        var t :- TextAttributes(st.page.revision.text, attrs);
        Ok(st.(page := st.page.(revision := st.page.revision.(text := t)), parentTag := name))
      else Ok(st.(parentTag := name))
    case Empty(name, attrs) =>
      if name == "redirect" then Ok(st.(page := st.page.(redirect := RedirectTarget(st.page.redirect, attrs))))
      else Ok(st)
    case Text(content) =>
      var p :- RouteText(st.page, st.parentNode, st.parentTag, content, decode);
      Ok(st.(page := p))
    case End(name) =>
      if name == "revision" || name == "contributor" then Ok(st.(parentNode := Decrement(st.parentNode)))
      else if name == "page" then Ok(State(0, st.parentTag, NewPage(), st.pages + [st.page]))
      else Ok(st)
    case Eof => Ok(st)
    case Other => Ok(st)
    case XmlFailure(position) => Err(XmlError(position))
  }

  /** The loop from a given state: it ends at the first `Eof` (or when the
      events run out) with the finished pages. */
  function Run(events: seq<Event>, st: State, decode: string -> string): Result<seq<Page>, ParseError>
    decreases |events|
  {
    if events == [] || events[0].Eof? then Ok(st.pages)
    else
      var st' :- Step(st, events[0], decode);
      Run(events[1..], st', decode)
  }

  /** What `get_pages_from_string` returns for the events of a block. */
  function Parse(events: seq<Event>, decode: string -> string): Result<seq<Page>, ParseError> {
    Run(events, Initial(), decode)
  }

  /** `get_pages_from_string`, over the tokenizer's events. */
  method GetPagesFromString(events: seq<Event>, decode: string -> string)
    returns (r: Result<seq<Page>, ParseError>)
    ensures r == Parse(events, decode)
  {
    var pages: seq<Page> := [];
    var page := NewPage();
    var parentNode: i8 := -1;
    var parentTag := "";
    var i := 0;
    while i < |events|
      invariant 0 <= i <= |events|
      invariant Run(events[i..], State(parentNode, parentTag, page, pages), decode) == Parse(events, decode)
    {
      ghost var before := State(parentNode, parentTag, page, pages);
      assert events[i..][1..] == events[i + 1..];
      match events[i] {
      case XmlFailure(position) =>
        return Err(XmlError(position));
      case Eof =>
        break;
      case Start(name, attrs) =>
        if name == "page" {
          parentNode := 0;
        } else if name == "revision" {
          parentNode := 1;
        } else if name == "contributor" {
          parentNode := 2;
        } else if name == "text" {
          var text := ReadTextAttributes(page.revision.text, attrs);
          if text.Err? {
            return Err(text.error);
          }
          page := page.(revision := page.revision.(text := text.value));
          parentTag := name;
        } else {
          parentTag := name;
        }
      case Empty(name, attrs) =>
        if name == "redirect" {
          var redirect := ReadRedirect(page.redirect, attrs);
          page := page.(redirect := redirect);
        }
      case Text(content) =>
        var routed := RouteText(page, parentNode, parentTag, content, decode);
        if routed.Err? {
          return Err(routed.error);
        }
        page := routed.value;
      case End(name) =>
        if name == "revision" || name == "contributor" {
          parentNode := Decrement(parentNode);
        } else if name == "page" {
          parentNode := 0;
          pages := pages + [page];
          page := NewPage();
        }
      case Other =>
      }
      assert Step(before, events[i], decode) == Ok(State(parentNode, parentTag, page, pages));
      i := i + 1;
    }
    if i == |events| {
      assert events[i..] == [];
    }
    r := Ok(pages);
  }

  /** The loop over the attributes of a `text` start tag. */
  method ReadTextAttributes(t: PageText, attrs: seq<Attribute>) returns (r: Result<PageText, ParseError>)
    ensures r == TextAttributes(t, attrs)
  {
    var text := t;
    var k := 0;
    while k < |attrs|
      invariant 0 <= k <= |attrs|
      invariant TextAttributes(t, attrs[..k]) == Ok(text)
    {
      assert attrs[..k + 1][..k] == attrs[..k];
      match attrs[k] {
        case MalformedAttribute =>
        case Attribute(key, value) =>
          if key == "bytes" {
            var n := ParseU64(value);
            if n.None? {
              TextAttributesPrefixError(t, attrs, k + 1);
              return Err(BadTextBytes(value));
            }
            text := text.(bytes := n.value);
          } else if key == "sha1" {
            text := text.(sha1 := value);
          }
      }
      k := k + 1;
    }
    assert attrs[..k] == attrs;
    r := Ok(text);
  }

  /** The loop over the attributes of an empty `redirect` tag. */
  method ReadRedirect(redirect: string, attrs: seq<Attribute>) returns (r: string)
    ensures r == RedirectTarget(redirect, attrs)
  {
    r := redirect;
    for k := 0 to |attrs|
      invariant RedirectTarget(redirect, attrs[..k]) == r
    {
      assert attrs[..k + 1][..k] == attrs[..k];
      if attrs[k].Attribute? {
        r := attrs[k].value;
      }
    }
    assert attrs[..|attrs|] == attrs;
  }

  lemma {:induction false} TextAttributesPrefixError(t: PageText, attrs: seq<Attribute>, k: nat)
    requires k <= |attrs|
    requires TextAttributes(t, attrs[..k]).Err?
    ensures TextAttributes(t, attrs) == TextAttributes(t, attrs[..k])
    decreases |attrs| - k
  {
    if k < |attrs| {
      assert attrs[..k + 1][..k] == attrs[..k];
      TextAttributesPrefixError(t, attrs, k + 1);
    } else {
      assert attrs[..k] == attrs;
    }
  }

  // ---------------------------------------------------------------------
  // attributes

  /** `attrs[k]` is the last well-formed attribute. */
  predicate LastWellFormed(attrs: seq<Attribute>, k: int) {
    0 <= k < |attrs| && attrs[k].Attribute?
    && forall j :: k < j < |attrs| ==> attrs[j].MalformedAttribute?
  }

  predicate Keyed(a: Attribute, key: string) {
    a.Attribute? && a.key == key
  }

  /** `attrs[k]` is the last well-formed attribute with this key. */
  predicate LastWithKey(attrs: seq<Attribute>, key: string, k: int) {
    0 <= k < |attrs| && Keyed(attrs[k], key)
    && forall j :: k < j < |attrs| ==> !Keyed(attrs[j], key)
  }

  predicate HasKey(attrs: seq<Attribute>, key: string) {
    exists j :: 0 <= j < |attrs| && Keyed(attrs[j], key)
  }

  /** A `bytes` attribute whose value is not a u64. */
  predicate BadBytes(a: Attribute) {
    a.Attribute? && a.key == "bytes" && ParseU64(a.value).None?
  }

  /** The redirect target is the value of the last well-formed attribute,
      and stays as it was when there is none. */
  lemma {:induction false} RedirectTargetIsLast(current: string, attrs: seq<Attribute>)
    ensures (forall j :: 0 <= j < |attrs| ==> attrs[j].MalformedAttribute?) ==>
      RedirectTarget(current, attrs) == current
    ensures forall k :: LastWellFormed(attrs, k) ==> RedirectTarget(current, attrs) == attrs[k].value
    decreases |attrs|
  {
    if attrs != [] {
      var init := attrs[..|attrs| - 1];
      RedirectTargetIsLast(current, init);
      forall k | LastWellFormed(attrs, k)
        ensures RedirectTarget(current, attrs) == attrs[k].value
      {
        if k < |attrs| - 1 {
          assert LastWellFormed(init, k);
        }
      }
    }
  }

  /** The `<text>` attributes abort exactly when some `bytes` value is not
      a u64. */
  lemma {:induction false} TextAttributesFails(t: PageText, attrs: seq<Attribute>)
    ensures TextAttributes(t, attrs).Err? <==> exists k :: 0 <= k < |attrs| && BadBytes(attrs[k])
    decreases |attrs|
  {
    if attrs != [] {
      var init := attrs[..|attrs| - 1];
      TextAttributesStep(t, attrs);
      TextAttributesFails(t, init);
      SomeBadSplit(attrs);
    }
  }

  lemma TextAttributesStep(t: PageText, attrs: seq<Attribute>)
    requires attrs != []
    ensures TextAttributes(t, attrs).Err?
      <==> TextAttributes(t, attrs[..|attrs| - 1]).Err? || BadBytes(attrs[|attrs| - 1])
  {
  }

  predicate SomeBad(attrs: seq<Attribute>) {
    exists k :: 0 <= k < |attrs| && BadBytes(attrs[k])
  }

  lemma SomeBadSplit(attrs: seq<Attribute>)
    requires attrs != []
    ensures SomeBad(attrs) <==> SomeBad(attrs[..|attrs| - 1]) || BadBytes(attrs[|attrs| - 1])
  {
    var init := attrs[..|attrs| - 1];
    if exists k :: 0 <= k < |init| && BadBytes(init[k]) {
      var k :| 0 <= k < |init| && BadBytes(init[k]);
      assert attrs[k] == init[k];
    }
    if exists k :: 0 <= k < |attrs| && BadBytes(attrs[k]) {
      var k :| 0 <= k < |attrs| && BadBytes(attrs[k]);
      if k < |init| {
        assert init[k] == attrs[k];
      }
    }
  }

  /** Accepted `<text>` attributes never touch the article body. */
  lemma {:induction false} TextAttributesKeepBody(t: PageText, attrs: seq<Attribute>)
    requires TextAttributes(t, attrs).Ok?
    ensures TextAttributes(t, attrs).value.text == t.text
    decreases |attrs|
  {
    if attrs != [] {
      TextAttributesKeepBody(t, attrs[..|attrs| - 1]);
    }
  }

  /** When the `<text>` attributes are accepted, `bytes` holds the value of
      the last `bytes` attribute, and is unchanged when there is none. */
  lemma {:induction false} TextBytesIsLast(t: PageText, attrs: seq<Attribute>)
    requires TextAttributes(t, attrs).Ok?
    ensures !HasKey(attrs, "bytes") ==> TextAttributes(t, attrs).value.bytes == t.bytes
    ensures forall k :: LastWithKey(attrs, "bytes", k) ==>
      ParseU64(attrs[k].value) == Some(TextAttributes(t, attrs).value.bytes)
    decreases |attrs|
  {
    if attrs != [] {
      var init := attrs[..|attrs| - 1];
      TextBytesIsLast(t, init);
      var r := TextAttributes(t, attrs).value;
      forall k | LastWithKey(attrs, "bytes", k)
        ensures ParseU64(attrs[k].value) == Some(r.bytes)
      {
        if k < |attrs| - 1 {
          assert LastWithKey(init, "bytes", k);
        }
      }
    }
  }

  /** When the `<text>` attributes are accepted, `sha1` holds the value of
      the last `sha1` attribute, and is unchanged when there is none. */
  lemma {:induction false} TextSha1IsLast(t: PageText, attrs: seq<Attribute>)
    requires TextAttributes(t, attrs).Ok?
    ensures !HasKey(attrs, "sha1") ==> TextAttributes(t, attrs).value.sha1 == t.sha1
    ensures forall k :: LastWithKey(attrs, "sha1", k) ==>
      TextAttributes(t, attrs).value.sha1 == attrs[k].value
    decreases |attrs|
  {
    if attrs != [] {
      var init := attrs[..|attrs| - 1];
      TextSha1IsLast(t, init);
      var r := TextAttributes(t, attrs).value;
      forall k | LastWithKey(attrs, "sha1", k)
        ensures r.sha1 == attrs[k].value
      {
        if k < |attrs| - 1 {
          assert LastWithKey(init, "sha1", k);
        }
      }
    }
  }

  // ---------------------------------------------------------------------
  // the routing table

  /** Every leaf of a page. */
  datatype Field =
    | Title | Redirect | Namespace | PageId
    | RevisionId | ParentId | Timestamp | Comment | Origin | Model | Format | RevisionSha1
    | Username | ContributorId | Ip
    | TextBytes | TextSha1 | Body

  datatype Value = Str(s: string) | Num(n: nat)

  function Get(p: Page, f: Field): Value {
    match f
    case Title => Str(p.title)
    case Redirect => Str(p.redirect)
    case Namespace => Num(p.namespace)
    case PageId => Num(p.id)
    case RevisionId => Num(p.revision.id)
    case ParentId => Num(p.revision.parentId)
    case Timestamp => Str(p.revision.timestamp)
    case Comment => Str(p.revision.comment)
    case Origin => Num(p.revision.origin)
    case Model => Str(p.revision.model)
    case Format => Str(p.revision.format)
    case RevisionSha1 => Str(p.revision.sha1)
    case Username => Str(p.revision.contributor.username)
    case ContributorId => Num(p.revision.contributor.id)
    case Ip => Str(p.revision.contributor.ip)
    case TextBytes => Num(p.revision.text.bytes)
    case TextSha1 => Str(p.revision.text.sha1)
    case Body => Str(p.revision.text.text)
  }

  /** The value a text event gives the field it fills: the u64 the text
      spells for a numeric field (0 stands in when it spells none, where
      routing aborts instead), the decoded text for the article body, the
      text itself for any other field. */
  function FieldValue(f: Field, text: string, decode: string -> string): (v: Value)
    ensures v.Num? == Numeric(f)
  {
    if Numeric(f) then Num(match ParseU64(text) case Some(n) => n case None => 0)
    else if f == Body then Str(decode(text))
    else Str(text)
  }

  /** A page with one field set and every other field kept. */
  function Put(p: Page, f: Field, v: Value): Page
    requires v.Num? == Numeric(f)
  {
    match f
    case Title => p.(title := v.s)
    case Redirect => p.(redirect := v.s)
    case Namespace => p.(namespace := v.n)
    case PageId => p.(id := v.n)
    case RevisionId => p.(revision := p.revision.(id := v.n))
    case ParentId => p.(revision := p.revision.(parentId := v.n))
    case Timestamp => p.(revision := p.revision.(timestamp := v.s))
    case Comment => p.(revision := p.revision.(comment := v.s))
    case Origin => p.(revision := p.revision.(origin := v.n))
    case Model => p.(revision := p.revision.(model := v.s))
    case Format => p.(revision := p.revision.(format := v.s))
    case RevisionSha1 => p.(revision := p.revision.(sha1 := v.s))
    case Username => p.(revision := p.revision.(contributor := p.revision.contributor.(username := v.s)))
    case ContributorId => p.(revision := p.revision.(contributor := p.revision.contributor.(id := v.n)))
    case Ip => p.(revision := p.revision.(contributor := p.revision.contributor.(ip := v.s)))
    case TextBytes => p.(revision := p.revision.(text := p.revision.text.(bytes := v.n)))
    case TextSha1 => p.(revision := p.revision.(text := p.revision.text.(sha1 := v.s)))
    case Body => p.(revision := p.revision.(text := p.revision.text.(text := v.s)))
  }

  /** `Put` sets the one field it names and keeps every other. */
  lemma PutGet(p: Page, f: Field, v: Value, g: Field)
    requires v.Num? == Numeric(f)
    ensures Get(Put(p, f, v), g) == if g == f then v else Get(p, g)
  {
    match f
    case Title =>
    case Redirect =>
    case Namespace =>
    case PageId =>
    case RevisionId =>
    case ParentId =>
    case Timestamp =>
    case Comment =>
    case Origin =>
    case Model =>
    case Format =>
    case RevisionSha1 =>
    case Username =>
    case ContributorId =>
    case Ip =>
    case TextBytes =>
    case TextSha1 =>
    case Body =>
  }

  /** A routed text event fills the field the table names with the value
      the text gives it and leaves every other field of the page as it was;
      outside the table nothing changes. */
  lemma RouteTextFields(page: Page, node: i8, tag: string, text: string, decode: string -> string, g: Field)
    requires RouteText(page, node, tag, text, decode).Ok?
    ensures Get(RouteText(page, node, tag, text, decode).value, g)
      == if Routed(node, tag) == Some(g) then FieldValue(g, text, decode) else Get(page, g)
  {
    if Routed(node, tag).Some? {
      PutGet(page, Routed(node, tag).value, FieldValue(Routed(node, tag).value, text, decode), g);
    }
  }

  /** The fields are all of a page: two pages that agree on every field are
      the same page. */
  lemma PageByFields(p: Page, q: Page)
    requires forall f :: Get(p, f) == Get(q, f)
    ensures p == q
  {
    assert Get(p, Username) == Get(q, Username);
    assert Get(p, ContributorId) == Get(q, ContributorId);
    assert Get(p, Ip) == Get(q, Ip);
    assert p.revision.contributor == q.revision.contributor;
    assert Get(p, TextBytes) == Get(q, TextBytes);
    assert Get(p, TextSha1) == Get(q, TextSha1);
    assert Get(p, Body) == Get(q, Body);
    assert p.revision.text == q.revision.text;
    assert Get(p, RevisionId) == Get(q, RevisionId);
    assert Get(p, ParentId) == Get(q, ParentId);
    assert Get(p, Timestamp) == Get(q, Timestamp);
    assert Get(p, Comment) == Get(q, Comment);
    assert Get(p, Origin) == Get(q, Origin);
    assert Get(p, Model) == Get(q, Model);
    assert Get(p, Format) == Get(q, Format);
    assert Get(p, RevisionSha1) == Get(q, RevisionSha1);
    assert p.revision == q.revision;
    assert Get(p, Title) == Get(q, Title);
    assert Get(p, Redirect) == Get(q, Redirect);
    assert Get(p, Namespace) == Get(q, Namespace);
    assert Get(p, PageId) == Get(q, PageId);
  }

  /** Which field a text event fills, by nesting code and enclosing tag. */
  function Routed(node: i8, tag: string): Option<Field> {
    if node == 0 then
      if tag == "title" then Some(Title)
      else if tag == "ns" then Some(Namespace)
      else if tag == "id" then Some(PageId)
      else None
    else if node == 1 then
      if tag == "id" then Some(RevisionId)
      else if tag == "parentId" then Some(ParentId)
      else if tag == "timestamp" then Some(Timestamp)
      else if tag == "comment" then Some(Comment)
      else if tag == "origin" then Some(Origin)
      else if tag == "model" then Some(Model)
      else if tag == "format" then Some(Format)
      else if tag == "text" then Some(Body)
      else if tag == "sha1" then Some(RevisionSha1)
      else None
    else if node == 2 then
      if tag == "username" then Some(Username)
      else if tag == "id" then Some(ContributorId)
      else if tag == "ip" then Some(Ip)
      else None
    else None
  }

  predicate Numeric(f: Field) {
    f.Namespace? || f.PageId? || f.RevisionId? || f.ParentId? || f.Origin?
    || f.ContributorId? || f.TextBytes?
  }

  // ---------------------------------------------------------------------
  // properties of the loop

  /** The number of `</page>` events before the first `Eof`. */
  function ClosedPages(events: seq<Event>): nat
    decreases |events|
  {
    if events == [] || events[0].Eof? then 0
    else (if events[0] == End("page") then 1 else 0) + ClosedPages(events[1..])
  }

  /** A step keeps the finished pages, and adds the scratch page exactly at
      `</page>`. */
  lemma StepPages(st: State, e: Event, decode: string -> string)
    requires Step(st, e, decode).Ok?
    ensures Step(st, e, decode).value.pages
      == if e == End("page") then st.pages + [st.page] else st.pages
  {
  }

  /** Pages once finished are never changed, and one more is finished per
      `</page>` before the end of the stream. */
  lemma {:induction false} RunPages(events: seq<Event>, st: State, decode: string -> string)
    requires Run(events, st, decode).Ok?
    ensures st.pages <= Run(events, st, decode).value
    ensures |Run(events, st, decode).value| == |st.pages| + ClosedPages(events)
    decreases |events|
  {
    if events != [] && !events[0].Eof? {
      StepPages(st, events[0], decode);
      RunPages(events[1..], Step(st, events[0], decode).value, decode);
    }
  }

  /** `get_pages_from_string` returns one page per `</page>` before the end
      of the stream. */
  lemma PageCount(events: seq<Event>, decode: string -> string)
    requires Parse(events, decode).Ok?
    ensures |Parse(events, decode).value| == ClosedPages(events)
  {
    RunPages(events, Initial(), decode);
  }

  /** Everything after the first `Eof` is ignored, and a stream that simply
      runs out behaves as one that ends with `Eof`. */
  lemma {:induction false} RunStopsAtEof(a: seq<Event>, b: seq<Event>, st: State, decode: string -> string)
    requires forall i :: 0 <= i < |a| ==> !a[i].Eof?
    ensures Run(a + [Eof] + b, st, decode) == Run(a, st, decode)
    decreases |a|
  {
    if a != [] {
      assert (a + [Eof] + b)[1..] == a[1..] + [Eof] + b;
      match Step(st, a[0], decode)
      case Err(_) =>
      case Ok(st') => RunStopsAtEof(a[1..], b, st', decode);
    }
  }

  /** A tokenizer error before the end of the stream aborts the whole
      block: no page of it is returned. */
  lemma {:induction false} XmlFailureAborts(events: seq<Event>, k: nat, st: State, decode: string -> string)
    requires k < |events| && events[k].XmlFailure?
    requires forall i :: 0 <= i < k ==> !events[i].Eof?
    ensures Run(events, st, decode).Err?
    decreases k
  {
    if k > 0 {
      match Step(st, events[0], decode)
      case Err(_) =>
      case Ok(st') => XmlFailureAborts(events[1..], k - 1, st', decode);
    }
  }

  /** The states the loop goes through over events that contain no `Eof`. */
  function Steps(events: seq<Event>, st: State, decode: string -> string): Result<State, ParseError>
    decreases |events|
  {
    if events == [] then Ok(st)
    else
      var st' :- Step(st, events[0], decode);
      Steps(events[1..], st', decode)
  }

  predicate NoEof(events: seq<Event>) {
    forall i :: 0 <= i < |events| ==> !events[i].Eof?
  }

  /** The loop over two stretches of events is the loop over the second
      from where the first left it. */
  lemma {:induction false} StepsAppend(a: seq<Event>, b: seq<Event>, st: State, mid: State, decode: string -> string)
    requires Steps(a, st, decode) == Ok(mid)
    ensures Steps(a + b, st, decode) == Steps(b, mid, decode)
    decreases |a|
  {
    if a == [] {
      assert a + b == b;
    } else {
      assert (a + b)[1..] == a[1..] + b;
      StepsAppend(a[1..], b, Step(st, a[0], decode).value, mid, decode);
    }
  }

  /** Up to the first `Eof` the loop goes through `Steps`; it then returns
      the pages finished so far. */
  lemma {:induction false} RunIsSteps(a: seq<Event>, b: seq<Event>, st: State, decode: string -> string)
    requires NoEof(a)
    ensures Run(a + [Eof] + b, st, decode)
      == match Steps(a, st, decode) case Err(e) => Err(e) case Ok(last) => Ok(last.pages)
    decreases |a|
  {
    if a != [] {
      assert (a + [Eof] + b)[1..] == a[1..] + [Eof] + b;
      match Step(st, a[0], decode)
      case Err(_) =>
      case Ok(st') => RunIsSteps(a[1..], b, st', decode);
    }
  }

  /** `Page::new` leaves every field blank: 0 for the numbers, "" for the
      strings. */
  lemma NewPageBlank(g: Field)
    ensures Get(NewPage(), g) == if Numeric(g) then Num(0) else Str("")
  {
  }

  /** At `</page>`, from any state, the scratch page is appended to the
      finished pages and replaced by a blank one, and the loop is back at
      the page level; the current tag is kept. */
  lemma ClosePageResets(st: State, decode: string -> string)
    ensures Step(st, End("page"), decode) == Ok(State(0, st.parentTag, NewPage(), st.pages + [st.page]))
  {
  }

  // ---------------------------------------------------------------------
  // a sample block

  /** `<tag>text</tag>` */
  function Element(tag: string, text: string): seq<Event> {
    [Start(tag, []), Text(text), End(tag)]
  }

  /** An element other than the four structural ones makes its tag the
      current one and routes its text under it; its end tag changes
      nothing. */
  lemma ElementSteps(tag: string, text: string, st: State, decode: string -> string)
    requires tag != "page" && tag != "revision" && tag != "contributor" && tag != "text"
    requires RouteText(st.page, st.parentNode, tag, text, decode).Ok?
    ensures Steps(Element(tag, text), st, decode)
      == Ok(st.(parentTag := tag, page := RouteText(st.page, st.parentNode, tag, text, decode).value))
  {
    var es := Element(tag, text);
    var s1 := st.(parentTag := tag);
    var s2 := s1.(page := RouteText(st.page, st.parentNode, tag, text, decode).value);
    StepsFirst(es, st, s1, decode);
    StepsFirst(es[1..], s1, s2, decode);
    assert es[1..][1..] == es[2..];
    StepsFirst(es[2..], s2, s2, decode);
    assert es[2..][1..] == [];
  }

  /** The loop over two stretches, each with a known outcome. */
  lemma StepsThen(a: seq<Event>, b: seq<Event>, st: State, mid: State, last: State, decode: string -> string)
    requires Steps(a, st, decode) == Ok(mid) && Steps(b, mid, decode) == Ok(last)
    ensures Steps(a + b, st, decode) == Ok(last)
  {
    StepsAppend(a, b, st, mid, decode);
  }

  lemma StepsOne(e: Event, st: State, decode: string -> string)
    ensures Steps([e], st, decode) == Step(st, e, decode)
  {
    assert [e][1..] == [];
  }

  function PageHead(): seq<Event> {
    [Start("page", [])] + Element("title", "Main") + Element("ns", "4") + Element("id", "12")
      + [Empty("redirect", [Attribute("title", "Home")])]
  }

  function RevisionHead(): seq<Event> {
    [Start("revision", [])] + Element("id", "34") + Element("timestamp", "2024")
  }

  function ContributorPart(): seq<Event> {
    [Start("contributor", [])] + Element("username", "Ann") + Element("id", "5") + [End("contributor")]
  }

  function TextPart(): seq<Event> {
    [Start("text", [Attribute("bytes", "3"), Attribute("sha1", "ab")]), Text("a&amp;b"),
     End("text"), End("revision"), End("page")]
  }

  function SecondPage(): seq<Event> {
    [Start("page", [])] + Element("title", "Talk") + [End("page")]
  }

  /** Two pages.  The first has a title, a namespace, an id and a redirect;
      its revision an id and a timestamp; its contributor a name and an id;
      its text both attributes and an escaped body.  After `</contributor>`
      text is routed to the revision again, and after `</page>` the second
      page starts blank. */
  function SampleBlock(): seq<Event> {
    FirstPage() + SecondPage() + [Eof]
  }

  function SamplePage(decode: string -> string): Page {
    Page("Main", "Home", 4, 12,
      Revision(34, 0, "2024", Contributor("Ann", 5, ""), "", 0, "", "", PageText(3, "ab", decode("a&amp;b")), ""))
  }

  // the routing of each text event of the sample

  lemma RouteTitle(p: Page, text: string, decode: string -> string)
    ensures RouteText(p, 0, "title", text, decode) == Ok(p.(title := text))
  {
  }

  lemma RouteNamespace(p: Page, decode: string -> string)
    ensures RouteText(p, 0, "ns", "4", decode) == Ok(p.(namespace := 4))
  {
    assert ParseU64("4") == Some(4) by { assert "4"[..0] == ""; }
  }

  lemma RoutePageId(p: Page, decode: string -> string)
    ensures RouteText(p, 0, "id", "12", decode) == Ok(p.(id := 12))
  {
    assert ParseU64("12") == Some(12) by { assert "12"[..1] == "1" && "1"[..0] == ""; }
  }

  lemma RouteRevisionId(p: Page, decode: string -> string)
    ensures RouteText(p, 1, "id", "34", decode) == Ok(p.(revision := p.revision.(id := 34)))
  {
    assert ParseU64("34") == Some(34) by { assert "34"[..1] == "3" && "3"[..0] == ""; }
  }

  lemma RouteTimestamp(p: Page, text: string, decode: string -> string)
    ensures RouteText(p, 1, "timestamp", text, decode) == Ok(p.(revision := p.revision.(timestamp := text)))
  {
  }

  lemma RouteUsername(p: Page, text: string, decode: string -> string)
    ensures RouteText(p, 2, "username", text, decode)
      == Ok(p.(revision := p.revision.(contributor := p.revision.contributor.(username := text))))
  {
  }

  lemma RouteContributorId(p: Page, decode: string -> string)
    ensures RouteText(p, 2, "id", "5", decode)
      == Ok(p.(revision := p.revision.(contributor := p.revision.contributor.(id := 5))))
  {
    assert ParseU64("5") == Some(5) by { assert "5"[..0] == ""; }
  }

  lemma RouteBody(p: Page, text: string, decode: string -> string)
    ensures RouteText(p, 1, "text", text, decode)
      == Ok(p.(revision := p.revision.(text := p.revision.text.(text := decode(text)))))
  {
  }

  lemma PageHeadSteps(st: State, decode: string -> string)
    ensures Steps(PageHead(), st, decode)
      == Ok(State(0, "id", st.page.(title := "Main", namespace := 4, id := 12, redirect := "Home"), st.pages))
  {
    var s0 := st.(parentNode := 0);
    var s1 := s0.(parentTag := "title", page := s0.page.(title := "Main"));
    var s2 := s1.(parentTag := "ns", page := s1.page.(namespace := 4));
    var s3 := s2.(parentTag := "id", page := s2.page.(id := 12));
    var s4 := s3.(page := s3.page.(redirect := "Home"));
    StepsOne(Start("page", []), st, decode);
    RouteTitle(s0.page, "Main", decode);
    ElementSteps("title", "Main", s0, decode);
    RouteNamespace(s1.page, decode);
    ElementSteps("ns", "4", s1, decode);
    RoutePageId(s2.page, decode);
    ElementSteps("id", "12", s2, decode);
    StepsChain([Start("page", [])], Element("title", "Main"), Element("ns", "4"), Element("id", "12"),
      st, s0, s1, s2, s3, decode);
    assert RedirectTarget(s3.page.redirect, [Attribute("title", "Home")]) == "Home" by {
      assert [Attribute("title", "Home")][..0] == [];
    }
    StepsOne(Empty("redirect", [Attribute("title", "Home")]), s3, decode);
    StepsThen([Start("page", [])] + Element("title", "Main") + Element("ns", "4") + Element("id", "12"),
      [Empty("redirect", [Attribute("title", "Home")])], st, s3, s4, decode);
  }

  lemma RevisionHeadSteps(st: State, decode: string -> string)
    ensures Steps(RevisionHead(), st, decode)
      == Ok(State(1, "timestamp", st.page.(revision := st.page.revision.(id := 34, timestamp := "2024")), st.pages))
  {
    var s0 := st.(parentNode := 1);
    var s1 := s0.(parentTag := "id", page := s0.page.(revision := s0.page.revision.(id := 34)));
    var s2 := s1.(parentTag := "timestamp", page := s1.page.(revision := s1.page.revision.(timestamp := "2024")));
    StepsOne(Start("revision", []), st, decode);
    RouteRevisionId(s0.page, decode);
    ElementSteps("id", "34", s0, decode);
    StepsThen([Start("revision", [])], Element("id", "34"), st, s0, s1, decode);
    RouteTimestamp(s1.page, "2024", decode);
    ElementSteps("timestamp", "2024", s1, decode);
    StepsThen([Start("revision", [])] + Element("id", "34"), Element("timestamp", "2024"), st, s1, s2, decode);
  }

  lemma ContributorPartSteps(st: State, decode: string -> string)
    ensures Steps(ContributorPart(), st, decode)
      == Ok(State(1, "id", st.page.(revision := st.page.revision.(contributor :=
           st.page.revision.contributor.(username := "Ann", id := 5))), st.pages))
  {
    var s0 := st.(parentNode := 2);
    var c := s0.page.revision.contributor;
    var s1 := s0.(parentTag := "username", page := s0.page.(revision := s0.page.revision.(contributor :=
      c.(username := "Ann"))));
    var s2 := s1.(parentTag := "id", page := s1.page.(revision := s1.page.revision.(contributor :=
      c.(username := "Ann", id := 5))));
    var s3 := s2.(parentNode := 1);
    StepsOne(Start("contributor", []), st, decode);
    RouteUsername(s0.page, "Ann", decode);
    ElementSteps("username", "Ann", s0, decode);
    RouteContributorId(s1.page, decode);
    ElementSteps("id", "5", s1, decode);
    assert Decrement(2) == 1;
    StepsOne(End("contributor"), s2, decode);
    StepsChain([Start("contributor", [])], Element("username", "Ann"), Element("id", "5"), [End("contributor")],
      st, s0, s1, s2, s3, decode);
  }

  /** The loop takes its first event and carries on from there. */
  lemma StepsFirst(es: seq<Event>, st: State, mid: State, decode: string -> string)
    requires es != [] && Step(st, es[0], decode) == Ok(mid)
    ensures Steps(es, st, decode) == Steps(es[1..], mid, decode)
  {
  }

  lemma SampleTextAttributes(t: PageText)
    ensures TextAttributes(t, [Attribute("bytes", "3"), Attribute("sha1", "ab")]) == Ok(t.(bytes := 3, sha1 := "ab"))
  {
    var attrs := [Attribute("bytes", "3"), Attribute("sha1", "ab")];
    assert attrs[..1] == [Attribute("bytes", "3")] && attrs[..1][..0] == [];
    assert ParseU64("3") == Some(3) by { assert "3"[..0] == ""; }
  }

  lemma TextPartSteps(st: State, decode: string -> string)
    requires st.parentNode == 1
    ensures Steps(TextPart(), st, decode)
      == Ok(State(0, "text", NewPage(), st.pages + [st.page.(revision := st.page.revision.(text :=
           PageText(3, "ab", decode("a&amp;b"))))]))
  {
    var attrs := [Attribute("bytes", "3"), Attribute("sha1", "ab")];
    var t1 := st.page.revision.text.(bytes := 3, sha1 := "ab");
    var p1 := st.page.(revision := st.page.revision.(text := t1));
    var s1 := st.(page := p1, parentTag := "text");
    var p2 := p1.(revision := p1.revision.(text := PageText(3, "ab", decode("a&amp;b"))));
    var s2 := s1.(page := p2);
    var s3 := s2.(parentNode := 0);
    var s4 := State(0, "text", NewPage(), st.pages + [p2]);
    SampleTextAttributes(st.page.revision.text);
    StepsOne(Start("text", attrs), st, decode);
    RouteBody(p1, "a&amp;b", decode);
    StepsOne(Text("a&amp;b"), s1, decode);
    assert Decrement(1) == 0;
    assert Steps([End("text"), End("revision")], s2, decode) == Ok(s3) by {
      StepsFirst([End("text"), End("revision")], s2, s2, decode);
      assert [End("text"), End("revision")][1..] == [End("revision")];
      StepsOne(End("revision"), s2, decode);
    }
    ClosePageResets(s3, decode);
    StepsOne(End("page"), s3, decode);
    assert TextPart() == [Start("text", attrs)] + [Text("a&amp;b")] + [End("text"), End("revision")] + [End("page")];
    StepsChain([Start("text", attrs)], [Text("a&amp;b")], [End("text"), End("revision")], [End("page")],
      st, s1, s2, s3, s4, decode);
  }

  lemma SecondPageSteps(st: State, decode: string -> string)
    ensures Steps(SecondPage(), st, decode)
      == Ok(State(0, "title", NewPage(), st.pages + [st.page.(title := "Talk")]))
  {
    var s0 := st.(parentNode := 0);
    var s1 := s0.(parentTag := "title", page := s0.page.(title := "Talk"));
    var s2 := State(0, "title", NewPage(), st.pages + [s1.page]);
    StepsOne(Start("page", []), st, decode);
    RouteTitle(s0.page, "Talk", decode);
    ElementSteps("title", "Talk", s0, decode);
    StepsThen([Start("page", [])], Element("title", "Talk"), st, s0, s1, decode);
    StepsOne(End("page"), s1, decode);
    ClosePageResets(s1, decode);
    StepsThen([Start("page", [])] + Element("title", "Talk"), [End("page")], st, s1, s2, decode);
  }

  lemma NoEofAppend(a: seq<Event>, b: seq<Event>)
    requires NoEof(a) && NoEof(b)
    ensures NoEof(a + b)
  {
    assert forall i :: 0 <= i < |a + b| ==> (a + b)[i] == if i < |a| then a[i] else b[i - |a|];
  }

  /** The sample block gives exactly its two pages, in order: the first
      with every field its events name, its other fields blank, and the
      second blank but for the title. */
  lemma SampleBlockParses(decode: string -> string)
    ensures Parse(SampleBlock(), decode) == Ok([SamplePage(decode), NewPage().(title := "Talk")])
  {
    var a := FirstPage() + SecondPage();
    assert SampleBlock() == a + [Eof] + [];
    assert NoEof(a) by {
      NoEofAppend(PageHead(), RevisionHead());
      NoEofAppend(PageHead() + RevisionHead(), ContributorPart());
      NoEofAppend(PageHead() + RevisionHead() + ContributorPart(), TextPart());
      NoEofAppend(FirstPage(), SecondPage());
    }
    SampleSteps(decode);
    RunIsSteps(a, [], Initial(), decode);
  }

  /** Four stretches run one after another. */
  lemma StepsChain(a: seq<Event>, b: seq<Event>, c: seq<Event>, d: seq<Event>,
                   s0: State, s1: State, s2: State, s3: State, s4: State, decode: string -> string)
    requires Steps(a, s0, decode) == Ok(s1) && Steps(b, s1, decode) == Ok(s2)
    requires Steps(c, s2, decode) == Ok(s3) && Steps(d, s3, decode) == Ok(s4)
    ensures Steps(a + b + c + d, s0, decode) == Ok(s4)
  {
    StepsThen(a, b, s0, s1, s2, decode);
    StepsThen(a + b, c, s0, s2, s3, decode);
    StepsThen(a + b + c, d, s0, s3, s4, decode);
  }

  function FirstPage(): seq<Event> {
    PageHead() + RevisionHead() + ContributorPart() + TextPart()
  }

  /** The first page of the sample, from the start. */
  lemma FirstPageSteps(decode: string -> string)
    ensures Steps(FirstPage(), Initial(), decode) == Ok(State(0, "text", NewPage(), [SamplePage(decode)]))
  {
    var p := NewPage();
    var s1 := State(0, "id", p.(title := "Main", namespace := 4, id := 12, redirect := "Home"), []);
    PageHeadSteps(Initial(), decode);
    var s2 := State(1, "timestamp", s1.page.(revision := s1.page.revision.(id := 34, timestamp := "2024")), []);
    RevisionHeadSteps(s1, decode);
    var s3 := State(1, "id", s2.page.(revision := s2.page.revision.(contributor :=
      s2.page.revision.contributor.(username := "Ann", id := 5))), []);
    ContributorPartSteps(s2, decode);
    var first := s3.page.(revision := s3.page.revision.(text := PageText(3, "ab", decode("a&amp;b"))));
    assert first == SamplePage(decode);
    TextPartSteps(s3, decode);
    assert s3.pages + [first] == [first];
    StepsChain(PageHead(), RevisionHead(), ContributorPart(), TextPart(),
      Initial(), s1, s2, s3, State(0, "text", NewPage(), [first]), decode);
  }

  lemma SampleSteps(decode: string -> string)
    ensures Steps(FirstPage() + SecondPage(), Initial(), decode)
      == Ok(State(0, "title", NewPage(), [SamplePage(decode), NewPage().(title := "Talk")]))
  {
    var s4 := State(0, "text", NewPage(), [SamplePage(decode)]);
    var s5 := State(0, "title", NewPage(), [SamplePage(decode), NewPage().(title := "Talk")]);
    FirstPageSteps(decode);
    SecondPageSteps(s4, decode);
    assert s4.pages + [s4.page.(title := "Talk")] == s5.pages;
    StepsThen(FirstPage(), SecondPage(), Initial(), s4, s5, decode);
  }
}
