/** The live preview of a business's website (`preview-generator.ts`): HTML escaping,
    the choice of the page to render, the navigation links and the dispatch of each
    section to its template.  The stored `website_structure` is loosely typed, so the
    preview reads it as a JavaScript value. */
module PreviewGenerator {
  import opened Collections
  import opened Strings
  import opened JsonValues
  import opened Templates

  // ---------------------------------------------------------------- escaping

  /** The replacement of one character by `escapeHTML`. */
  function EscapeChar(c: char): string {
    if c == '&' then "&amp;"
    else if c == '<' then "&lt;"
    else if c == '>' then "&gt;"
    else if c == '"' then "&quot;"
    else if c == '\'' then "&#039;"
    else [c]
  }

  /** Every character replaced by its escape, in order. */
  function EscapeEach(s: string): string {
    if |s| == 0 then [] else EscapeChar(s[0]) + EscapeEach(s[1..])
  }

  /** The five global replaces of `escapeHTML` on a string, ampersand first.  After
      them every character has been replaced by its escape (`EscapeIsPerCharacter`). */
  function Escape(s: string): string {
    var a := ReplaceChar(s, '&', "&amp;");
    var b := ReplaceChar(a, '<', "&lt;");
    var c := ReplaceChar(b, '>', "&gt;");
    var d := ReplaceChar(c, '"', "&quot;");
    ReplaceChar(d, '\'', "&#039;")
  }

  /** `escapeHTML(v)`: a value that is not a string escapes to the empty string. */
  function EscapeHtml(v: Json): (r: string)
    ensures !v.Str? ==> r == ""
    ensures v.Str? ==> r == EscapeEach(v.s)
    ensures '<' !in r && '>' !in r && '"' !in r && '\'' !in r
  {
    if v.Str? then EscapeIsPerCharacter(v.s); EscapeEachSafe(v.s); Escape(v.s) else ""
  }

  /** No escape contains a character that opens a tag or closes an attribute. */
  lemma {:induction false} EscapeEachSafe(s: string)
    ensures '<' !in EscapeEach(s) && '>' !in EscapeEach(s)
    ensures '"' !in EscapeEach(s) && '\'' !in EscapeEach(s)
  {
    if |s| > 0 {
      EscapeCharSafe(s[0]);
      EscapeEachSafe(s[1..]);
    }
  }

  lemma EscapeCharSafe(c: char)
    ensures '<' !in EscapeChar(c) && '>' !in EscapeChar(c)
    ensures '"' !in EscapeChar(c) && '\'' !in EscapeChar(c)
  {
  }

  lemma {:induction false} ReplaceCharAppend(x: string, y: string, c: char, rep: string)
    ensures ReplaceChar(x + y, c, rep) == ReplaceChar(x, c, rep) + ReplaceChar(y, c, rep)
  {
    if |x| > 0 {
      assert (x + y)[1..] == x[1..] + y;
      ReplaceCharAppend(x[1..], y, c, rep);
    } else {
      assert x + y == y;
    }
  }

  lemma EscapeAppend(x: string, y: string)
    ensures Escape(x + y) == Escape(x) + Escape(y)
  {
    var a := ReplaceChar(x, '&', "&amp;");
    var a' := ReplaceChar(y, '&', "&amp;");
    ReplaceCharAppend(x, y, '&', "&amp;");
    var b := ReplaceChar(a, '<', "&lt;");
    var b' := ReplaceChar(a', '<', "&lt;");
    ReplaceCharAppend(a, a', '<', "&lt;");
    var c := ReplaceChar(b, '>', "&gt;");
    var c' := ReplaceChar(b', '>', "&gt;");
    ReplaceCharAppend(b, b', '>', "&gt;");
    var d := ReplaceChar(c, '"', "&quot;");
    var d' := ReplaceChar(c', '"', "&quot;");
    ReplaceCharAppend(c, c', '"', "&quot;");
    ReplaceCharAppend(d, d', '\'', "&#039;");
  }

  /** Replacing the characters one after another, ampersand first, escapes each
      character once: no entity produced by one replace is rewritten by a later one. */
  lemma EscapeOne(c: char)
    ensures Escape([c]) == EscapeChar(c)
  {
    ReplaceSingle(c, '&', "&amp;");
    var a := ReplaceChar([c], '&', "&amp;");
    if c == '&' {
      EscapeEntity("&amp;");
    } else {
      ReplaceSingle(c, '<', "&lt;");
      if c == '<' {
        EscapeEntityAfterAmp("&lt;");
      } else {
        ReplaceSingle(c, '>', "&gt;");
        if c == '>' {
          EscapeEntityAfterLt("&gt;");
        } else {
          ReplaceSingle(c, '"', "&quot;");
          if c == '"' {
            assert '\'' !in "&quot;";
          } else {
            ReplaceSingle(c, '\'', "&#039;");
          }
        }
      }
    }
  }

  lemma ReplaceSingle(c: char, x: char, rep: string)
    ensures ReplaceChar([c], x, rep) == if c == x then rep else [c]
  {
    assert [c][1..] == [];
  }

  /** An entity produced by one replace holds none of the characters replaced after it. */
  lemma EscapeEntity(e: string)
    requires '<' !in e && '>' !in e && '"' !in e && '\'' !in e
    ensures ReplaceChar(ReplaceChar(ReplaceChar(ReplaceChar(e, '<', "&lt;"), '>', "&gt;"),
                                    '"', "&quot;"), '\'', "&#039;") == e
  {
  }

  lemma EscapeEntityAfterAmp(e: string)
    requires '>' !in e && '"' !in e && '\'' !in e
    ensures ReplaceChar(ReplaceChar(ReplaceChar(e, '>', "&gt;"), '"', "&quot;"), '\'', "&#039;") == e
  {
  }

  lemma EscapeEntityAfterLt(e: string)
    requires '"' !in e && '\'' !in e
    ensures ReplaceChar(ReplaceChar(e, '"', "&quot;"), '\'', "&#039;") == e
  {
  }

  lemma {:induction false} EscapeIsPerCharacter(s: string)
    ensures Escape(s) == EscapeEach(s)
  {
    if |s| > 0 {
      assert s == [s[0]] + s[1..];
      EscapeAppend([s[0]], s[1..]);
      EscapeOne(s[0]);
      EscapeIsPerCharacter(s[1..]);
    }
  }

  /** The text starts with one of the five entities `escapeHTML` produces. */
  predicate StartsEntity(t: string) {
    "&amp;" <= t || "&lt;" <= t || "&gt;" <= t || "&quot;" <= t || "&#039;" <= t
  }

  /** Decoding of the five entities, as an HTML parser reads text and attribute values. */
  function Unescape(t: string): string
    decreases |t|
  {
    if |t| == 0 then []
    else if "&amp;" <= t then "&" + Unescape(t[5..])
    else if "&lt;" <= t then "<" + Unescape(t[4..])
    else if "&gt;" <= t then ">" + Unescape(t[4..])
    else if "&quot;" <= t then "\"" + Unescape(t[6..])
    else if "&#039;" <= t then "'" + Unescape(t[6..])
    else [t[0]] + Unescape(t[1..])
  }

  lemma UnescapeOne(c: char, t: string)
    ensures Unescape(EscapeChar(c) + t) == [c] + Unescape(t)
  {
    var e := EscapeChar(c) + t;
    if c == '&' {
      assert e[5..] == t;
    } else if c == '<' {
      assert e[1] == 'l' && e[4..] == t;
    } else if c == '>' {
      assert e[1] == 'g' && e[4..] == t;
    } else if c == '"' {
      assert e[1] == 'q' && e[6..] == t;
    } else if c == '\'' {
      assert e[1] == '#' && e[6..] == t;
    } else {
      assert e[0] == c && e[1..] == t;
    }
  }

  /** Decoding the escaped text gives back the original string. */
  lemma {:induction false} EscapeRoundTrip(s: string)
    ensures Unescape(EscapeHtml(Str(s))) == s
  {
    EscapeIsPerCharacter(s);
    EscapeEachRoundTrip(s);
  }

  lemma {:induction false} EscapeEachRoundTrip(s: string)
    ensures Unescape(EscapeEach(s)) == s
  {
    if |s| > 0 {
      UnescapeOne(s[0], EscapeEach(s[1..]));
      EscapeEachRoundTrip(s[1..]);
    }
  }

  /** In escaped text every ampersand is the start of one of the five entities. */
  lemma {:induction false} AmpersandStartsEntity(s: string, i: int)
    requires 0 <= i < |EscapeHtml(Str(s))| && EscapeHtml(Str(s))[i] == '&'
    ensures StartsEntity(EscapeHtml(Str(s))[i..])
  {
    EscapeIsPerCharacter(s);
    EachAmpersandStartsEntity(s, i);
  }

  lemma {:induction false} EachAmpersandStartsEntity(s: string, i: int)
    requires 0 <= i < |EscapeEach(s)| && EscapeEach(s)[i] == '&'
    ensures StartsEntity(EscapeEach(s)[i..])
  {
    var h := EscapeChar(s[0]);
    var rest := EscapeEach(s[1..]);
    assert EscapeEach(s) == h + rest;
    if i < |h| {
      assert i == 0;
      assert EscapeEach(s)[i..] == h + rest;
    } else {
      assert rest[i - |h|] == '&';
      EachAmpersandStartsEntity(s[1..], i - |h|);
      assert EscapeEach(s)[i..] == rest[i - |h|..];
    }
  }

  // ---------------------------------------------------------------- pages

  /** `structure?.[key] || []` for a list-valued property: a missing or falsy value
      is the empty list. */
  function ListProp(structure: Json, key: string): (r: seq<Json>)
    ensures Prop(structure, key).Arr? ==> r == Prop(structure, key).items
    ensures !Prop(structure, key).Arr? ==> r == []
  {
    match Prop(structure, key)
    case Arr(items) => items
    case _ => []
  }

  /** `p.slug === slug`: strict equality holds only for a string slug. */
  predicate HasSlug(p: Json, slug: string) {
    Prop(p, "slug") == Str(slug)
  }

  /** `pages.find(p => p.slug === slug) || pages[0]`, read for its truthiness: the
      first page with the requested slug, else the first page when that is truthy. */
  function CurrentPage(pages: seq<Json>, slug: string): (r: Option<Json>)
    ensures r.Some? ==> Truthy(r.value) && r.value in pages
    ensures (exists i | 0 <= i < |pages| :: HasSlug(pages[i], slug)) ==>
      (exists i | 0 <= i < |pages| ::
        r == Some(pages[i]) && HasSlug(pages[i], slug)
        && forall j | 0 <= j < i :: !HasSlug(pages[j], slug))
    ensures (forall i | 0 <= i < |pages| :: !HasSlug(pages[i], slug)) ==>
      r == (if |pages| > 0 && Truthy(pages[0]) then Some(pages[0]) else None)
  {
    match FirstIndex(pages, p => HasSlug(p, slug))
    case Some(i) => Some(pages[i])
    case None => if |pages| > 0 && Truthy(pages[0]) then Some(pages[0]) else None
  }

  /** The content of the hero shown when there is no page to render. */
  const DefaultHero: Json :=
    Obj([Member("headline", Str("Welcome")),
         Member("subheadline", Str("Your business description goes here")),
         Member("cta_primary", Obj([Member("text", Str("Get Started")),
                                    Member("href", Str("#contact"))]))])

  /** The templates the preview can dispatch a section to. */
  const PreviewTemplates: seq<Template> :=
    [Hero, Features, Pricing, PricingPreview, Testimonials, Cta, Faq, Contact, About,
     Services, ServicesPreview, Menu, MenuPreview, Gallery, Location, Products, Team, Stats]

  /** `content || {}`. */
  function ContentOrEmpty(content: Json): (r: Json)
    ensures Truthy(r)
    ensures Truthy(content) ==> r == content
  {
    if Truthy(content) then content else Obj([])
  }

  /** Dispatch of a section over a table of templates: a section with a falsy type
      renders nothing; a string type naming a template of the table renders that
      template on the content, or on `{}` when the content is falsy; any other type
      renders nothing. */
  function RenderSection(table: seq<Template>, section: Json, render: (Template, Json) -> string): (r: string)
    ensures !Truthy(Prop(section, "type")) ==> r == ""
    ensures forall t | t in table && Prop(section, "type") == Str(TemplateName(t)) ::
      r == render(t, ContentOrEmpty(Prop(section, "content")))
    ensures (forall t | t in table :: Prop(section, "type") != Str(TemplateName(t)))
      ==> r == ""
  {
    var kind := Prop(section, "type");
    if !Truthy(kind) || !kind.Str? then ""
    else match Dispatch(table, kind.s)
      case None => ""
      case Some(t) =>
        forall u | u in table && kind == Str(TemplateName(u)) ensures u == t {
          TemplateNameInjective(u, t);
        }
        render(t, ContentOrEmpty(Prop(section, "content")))
  }

  /** `generateSection`: the dispatch over the eighteen preview templates. */
  function GenerateSection(section: Json, render: (Template, Json) -> string): string {
    RenderSection(PreviewTemplates, section, render)
  }

  /** The preview has a template for every section type except the footer. */
  lemma PreviewTemplatesCover(t: Template)
    ensures t in PreviewTemplates <==> t != Footer
  {
  }

  /** A section naming a template renders it, on `{}` when its content is falsy; a
      footer section has no template in the preview and renders nothing. */
  lemma SectionDispatch(t: Template, content: Json, render: (Template, Json) -> string)
    ensures GenerateSection(Obj([Member("type", Str(TemplateName(t))), Member("content", content)]), render)
         == if t == Footer then "" else render(t, ContentOrEmpty(content))
  {
    var section := Obj([Member("type", Str(TemplateName(t))), Member("content", content)]);
    assert section.members[1..] == [Member("content", content)];
    assert Get(section.members[1..], "content") == content;
    assert "type" != "content";
    assert Prop(section, "content") == content;
    PreviewTemplatesCover(t);
    forall u | u in PreviewTemplates ensures TemplateName(u) != TemplateName(t) || u == t {
      TemplateNameInjective(u, t);
    }
  }

  /** `generatePageSections`: a page whose `sections` is not an array renders nothing;
      otherwise its sections render in order, joined by newlines. */
  function PageSections(page: Json, render: (Template, Json) -> string): (r: string)
    ensures !Prop(page, "sections").Arr? ==> r == ""
  {
    match Prop(page, "sections")
    case Arr(items) => JoinMap(items, SectionRenderer(render), "\n")
    case _ => ""
  }

  /** The renderer of single sections that `map` applies. */
  function SectionRenderer(render: (Template, Json) -> string): Json -> string {
    section => GenerateSection(section, render)
  }

  /** The sections part of `generatePreviewHTML`: the current page's sections, or the
      default hero when there is no page. */
  function PreviewSections(structure: Json, slug: string, render: (Template, Json) -> string): string {
    match CurrentPage(ListProp(structure, "pages"), slug)
    case Some(p) => PageSections(p, render)
    case None => render(Hero, DefaultHero)
  }

  /** A structure without pages previews the default hero, whatever slug is asked for. */
  lemma NoPagesShowsDefaultHero(structure: Json, slug: string, render: (Template, Json) -> string)
    requires |ListProp(structure, "pages")| == 0
    ensures PreviewSections(structure, slug, render) == render(Hero, DefaultHero)
  {
  }

  /** A page's sections render independently of one another: appending a section
      appends its own rendering after a newline. */
  lemma SectionsInOrder(items: seq<Json>, extra: Json, render: (Template, Json) -> string)
    requires |items| > 0
    ensures PageSections(Obj([Member("sections", Arr(items + [extra]))]), render)
         == PageSections(Obj([Member("sections", Arr(items))]), render)
            + "\n" + GenerateSection(extra, render)
  {
    JoinMapSnoc(items, extra, SectionRenderer(render), "\n");
  }

  // ---------------------------------------------------------------- navigation

  /** The links shown when the structure has no navigation. */
  const DefaultNavigation: seq<Json> :=
    [NavItem("Home", "/"), NavItem("Features", "#features"), NavItem("Contact", "#contact")]

  /** `{ label, href }`. */
  function NavItem(text: string, href: string): Json {
    Obj([Member("label", Str(text)), Member("href", Str(href))])
  }

  /** The navigation items a preview renders: the structure's own, or the defaults
      when it has none. */
  function NavItems(navigation: seq<Json>): (r: seq<Json>)
    ensures |navigation| > 0 ==> r == navigation
    ensures |navigation| == 0 ==> |r| == 3
  {
    if |navigation| == 0 then DefaultNavigation else navigation
  }

  /** `item.href === currentSlug`. */
  predicate IsActive(item: Json, slug: string) {
    Prop(item, "href") == Str(slug)
  }

  /** The classes every navigation link carries, word by word. */
  const LinkClass: string :=
    "text-sm " + "font-medium " + "text-gray-600 " + "hover:text-gray-900 " + "transition-colors "
  const ActiveClass: string := "nav-link-active"

  /** The markup of an anchor with the given `href`, class list and text. */
  function Anchor(href: string, cls: string, text: string): string {
    "<a href=\"" + href + "\" class=\"" + cls + "\">" + text + "</a>"
  }

  /** The class list of a navigation link. */
  function LinkClasses(active: bool): (r: string)
    ensures '"' !in r
  {
    assert '"' !in LinkClass && '"' !in ActiveClass;
    LinkClass + (if active then ActiveClass else "")
  }

  /** The markup of one navigation link: the escaped `href` and label, and the active
      class when the item's `href` is the current slug. */
  function NavLink(item: Json, slug: string): string {
    Anchor(EscapeHtml(Prop(item, "href")), LinkClasses(IsActive(item, slug)),
           EscapeHtml(Prop(item, "label")))
  }

  /** The links of `generateNavigation`, one per navigation item, in order. */
  function NavLinks(navigation: seq<Json>, slug: string): (r: seq<string>)
    ensures |r| == |NavItems(navigation)|
    ensures forall i | 0 <= i < |r| :: r[i] == NavLink(NavItems(navigation)[i], slug)
  {
    var items := NavItems(navigation);
    seq(|items|, i requires 0 <= i < |items| => NavLink(items[i], slug))
  }

  /** The joined links of `generateNavigation`. */
  function NavLinksHtml(navigation: seq<Json>, slug: string): string {
    Join(NavLinks(navigation, slug), "\n        ")
  }

  /** The text before the first `c`, and the text after it. */
  function Before(s: string, c: char): (r: string)
    ensures c !in r
  {
    if |s| == 0 || s[0] == c then [] else [s[0]] + Before(s[1..], c)
  }

  function After(s: string, c: char): string {
    if |s| == 0 then [] else if s[0] == c then s[1..] else After(s[1..], c)
  }

  lemma {:induction false} BeforeAfter(h: string, c: char, rest: string)
    requires c !in h
    ensures Before(h + [c] + rest, c) == h
    ensures After(h + [c] + rest, c) == rest
  {
    if |h| > 0 {
      assert (h + [c] + rest)[1..] == h[1..] + [c] + rest;
      BeforeAfter(h[1..], c, rest);
    } else {
      assert h + [c] + rest == [c] + rest;
    }
  }

  /** The `href` attribute of a link read back from its markup, as a browser reads
      it: the text between `<a href="` and the next double quote. */
  function HrefAttribute(link: string): string {
    if |link| < 9 then [] else Before(link[9..], '"')
  }

  /** The `class` attribute read back the same way: after the `href` value's closing
      quote and ` class="`, up to the next double quote. */
  function ClassAttribute(link: string): string {
    var t := After(if |link| < 9 then [] else link[9..], '"');
    if |t| < 8 then [] else Before(t[8..], '"')
  }

  /** A link whose `href` and class list hold no double quote reads back as written. */
  lemma LinkParse(href: string, cls: string, text: string)
    requires '"' !in href && '"' !in cls
    ensures HrefAttribute(Anchor(href, cls, text)) == href
    ensures ClassAttribute(Anchor(href, cls, text)) == cls
  {
    var start := "<a href=\"";
    var t := " class=\"" + cls + "\">" + text + "</a>";
    var link := Anchor(href, cls, text);
    assert |start| == 9;
    assert link == start + (href + ['"'] + t);
    assert link[9..] == href + ['"'] + t;
    BeforeAfter(href, '"', t);
    var tail := ">" + text + "</a>";
    assert t == " class=\"" + (cls + ['"'] + tail);
    assert t[8..] == cls + ['"'] + tail;
    BeforeAfter(cls, '"', tail);
  }

  /** An escaped `href` cannot close its attribute early: the attributes read back from
      a link are the escaped `href`, which decodes to the item's `href`, and a class
      list that carries `nav-link-active` exactly when the item's `href` is the slug. */
  lemma NavLinkAttributes(item: Json, slug: string)
    ensures HrefAttribute(NavLink(item, slug)) == EscapeHtml(Prop(item, "href"))
    ensures Prop(item, "href").Str? ==>
      Unescape(HrefAttribute(NavLink(item, slug))) == Prop(item, "href").s
    ensures ClassAttribute(NavLink(item, slug))
         == LinkClass + (if IsActive(item, slug) then ActiveClass else "")
  {
    LinkParse(EscapeHtml(Prop(item, "href")), LinkClasses(IsActive(item, slug)),
              EscapeHtml(Prop(item, "label")));
    if Prop(item, "href").Str? {
      EscapeRoundTrip(Prop(item, "href").s);
    }
  }

  /** A navigation item built from a label and an `href` is active exactly on its `href`. */
  lemma ItemActiveIff(text: string, href: string, slug: string)
    ensures IsActive(NavItem(text, href), slug) <==> slug == href
  {
    var ms := [Member("label", Str(text)), Member("href", Str(href))];
    assert ms[1..] == [Member("href", Str(href))];
    assert Get(ms[1..], "href") == Str(href);
    assert "label" != "href";
    assert Get(ms, "href") == Str(href);
  }

  /** With no navigation of its own the preview links Home, Features and Contact, and
      the Home link is the active one exactly on the root page. */
  lemma DefaultNavigationLinks(slug: string)
    ensures |NavItems([])| == 3
    ensures IsActive(NavItems([])[0], slug) <==> slug == "/"
    ensures IsActive(NavItems([])[1], slug) <==> slug == "#features"
    ensures IsActive(NavItems([])[2], slug) <==> slug == "#contact"
  {
    ItemActiveIff("Home", "/", slug);
    ItemActiveIff("Features", "#features", slug);
    ItemActiveIff("Contact", "#contact", slug);
  }

  // ---------------------------------------------------------------- page list

  /** `{ name: p.name, slug: p.slug }`. */
  datatype PageLink = PageLink(name: Json, slug: Json)

  /** `getAvailablePages`: the name and slug of every page, in page order. */
  function AvailablePages(structure: Json): (r: seq<PageLink>)
    ensures |r| == |ListProp(structure, "pages")|
    ensures forall i | 0 <= i < |r| ::
      r[i] == PageLink(Prop(ListProp(structure, "pages")[i], "name"),
                       Prop(ListProp(structure, "pages")[i], "slug"))
    ensures !Prop(structure, "pages").Arr? ==> r == []
  {
    var pages := ListProp(structure, "pages");
    seq(|pages|, i requires 0 <= i < |pages| => PageLink(Prop(pages[i], "name"), Prop(pages[i], "slug")))
  }

  /** Every listed page can be previewed: asking for a listed string slug renders the
      first page that carries that slug. */
  lemma ListedSlugsPreview(structure: Json, i: int)
    requires 0 <= i < |AvailablePages(structure)| && AvailablePages(structure)[i].slug.Str?
    ensures var pages := ListProp(structure, "pages");
            var slug := AvailablePages(structure)[i].slug.s;
            exists k | 0 <= k <= i ::
              CurrentPage(pages, slug) == Some(pages[k]) && HasSlug(pages[k], slug)
  {
    var pages := ListProp(structure, "pages");
    var slug := AvailablePages(structure)[i].slug.s;
    assert HasSlug(pages[i], slug);
    var k :| 0 <= k < |pages| && CurrentPage(pages, slug) == Some(pages[k])
             && HasSlug(pages[k], slug) && forall j | 0 <= j < k :: !HasSlug(pages[j], slug);
    assert k <= i;
  }
}
