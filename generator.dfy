/** The exported website (`generator.ts`): the choice of the home page, the rendering
    of its sections through the site's thirteen templates, and the footer's company
    name.  This generator trusts the structure's declared types, so pages and sections
    are records here. */
module Generator {
  import opened Collections
  import opened Strings
  import opened JsonValues
  import opened Templates
  import PreviewGenerator

  /** A page section: its `type` and its `content` object. */
  datatype Section = Section(kind: string, content: Json)

  datatype SitePage = SitePage(name: string, slug: string, sections: seq<Section>)

  /** The parts of a website structure this generator reads. */
  datatype Structure = Structure(pages: seq<SitePage>, footer: Json)

  /** The templates of the site's section table. */
  const SiteTemplates: seq<Template> :=
    [Hero, Features, Pricing, Testimonials, Cta, Faq, Contact, About, Services, Menu,
     Gallery, Location, Products]

  /** The comment written in place of a section whose type has no template. */
  function UnknownSection(kind: string): string {
    "<!-- Unknown section type: " + kind + " -->"
  }

  /** Dispatch of a section over a table: a type naming a template of the table
      renders that template on the content; any other type leaves a comment naming it. */
  function RenderSection(table: seq<Template>, section: Section, render: (Template, Json) -> string): (r: string)
    ensures forall t | t in table && TemplateName(t) == section.kind ::
      r == render(t, section.content)
    ensures (forall t | t in table :: TemplateName(t) != section.kind) ==>
      r == UnknownSection(section.kind)
  {
    match Dispatch(table, section.kind)
    case None => UnknownSection(section.kind)
    case Some(t) =>
      forall u | u in table && TemplateName(u) == section.kind ensures u == t {
        TemplateNameInjective(u, t);
      }
      render(t, section.content)
  }

  /** `generateSection`: the dispatch over the site's templates. */
  function GenerateSection(section: Section, render: (Template, Json) -> string): string {
    RenderSection(SiteTemplates, section, render)
  }

  /** The renderer of single sections that `map` applies. */
  function SectionRenderer(render: (Template, Json) -> string): Section -> string {
    section => GenerateSection(section, render)
  }

  /** The sections of a page, rendered in page order and joined by newlines. */
  function PageSections(page: SitePage, render: (Template, Json) -> string): (r: string)
    ensures |page.sections| == 0 ==> r == ""
    ensures |page.sections| == 1 ==> r == GenerateSection(page.sections[0], render)
  {
    JoinMap(page.sections, SectionRenderer(render), "\n")
  }

  /** Appending a section to a page appends its own rendering after a newline. */
  lemma SectionsInOrder(page: SitePage, extra: Section, render: (Template, Json) -> string)
    requires |page.sections| > 0
    ensures PageSections(page.(sections := page.sections + [extra]), render)
         == PageSections(page, render) + "\n" + GenerateSection(extra, render)
  {
    JoinMapSnoc(page.sections, extra, SectionRenderer(render), "\n");
  }

  /** A page that counts as the home page: slug `/` or `home`, or the name `home` in
      any letter case. */
  predicate IsHome(p: SitePage) {
    p.slug == "/" || p.slug == "home" || Lower(p.name) == "home"
  }

  /** `pages.find(isHome) || pages[0]`: the first home page, else the first page. */
  function HomePage(pages: seq<SitePage>): (r: Option<SitePage>)
    ensures r.None? <==> |pages| == 0
    ensures (exists i | 0 <= i < |pages| :: IsHome(pages[i])) ==>
      (exists i | 0 <= i < |pages| ::
        r == Some(pages[i]) && IsHome(pages[i]) && forall j | 0 <= j < i :: !IsHome(pages[j]))
    ensures (forall i | 0 <= i < |pages| :: !IsHome(pages[i])) && |pages| > 0 ==>
      r == Some(pages[0])
  {
    match FirstIndex(pages, IsHome)
    case Some(i) => Some(pages[i])
    case None => if |pages| > 0 then Some(pages[0]) else None
  }

  /** The footer's content: its own members, with `company_name` kept when truthy and
      otherwise set to the business name. */
  function FooterContent(footer: Json, businessName: string): (r: Json)
    ensures r.Obj?
    ensures Truthy(Prop(footer, "company_name")) ==>
      Prop(r, "company_name") == Prop(footer, "company_name")
    ensures !Truthy(Prop(footer, "company_name")) ==>
      Prop(r, "company_name") == Str(businessName)
    ensures forall k | k != "company_name" :: Prop(r, k) == Prop(footer, k)
  {
    var own := Prop(footer, "company_name");
    Obj(Assign(if footer.Obj? then footer.members else [], "company_name",
               if Truthy(own) then own else Str(businessName)))
  }

  /** A footer without a company name of its own shows the business name. */
  lemma FooterFallsBackToBusinessName(businessName: string)
    ensures Prop(FooterContent(Undefined, businessName), "company_name") == Str(businessName)
    ensures Prop(FooterContent(Obj([Member("company_name", Str(""))]), businessName),
                 "company_name") == Str(businessName)
  {
  }

  /** `generateWebsiteHTML`: the comment for a structure without pages; otherwise the
      document `layout` puts around the home page's sections and the footer. */
  function GenerateWebsiteHtml(structure: Structure, businessName: string,
                               render: (Template, Json) -> string,
                               layout: (string, string) -> string): (r: string)
  {
    match HomePage(structure.pages)
    case None => "<!-- No pages defined -->"
    case Some(page) =>
      layout(PageSections(page, render), render(Footer, FooterContent(structure.footer, businessName)))
  }

  /** The document shows the home page's sections and the footer with its company
      name, and a structure without pages becomes a comment. */
  lemma WebsiteShowsHomePage(structure: Structure, businessName: string,
                             render: (Template, Json) -> string,
                             layout: (string, string) -> string)
    ensures |structure.pages| == 0 ==>
      GenerateWebsiteHtml(structure, businessName, render, layout) == "<!-- No pages defined -->"
    ensures |structure.pages| > 0 ==>
      exists i | 0 <= i < |structure.pages| ::
        GenerateWebsiteHtml(structure, businessName, render, layout)
          == layout(PageSections(structure.pages[i], render),
                    render(Footer, FooterContent(structure.footer, businessName)))
        && (IsHome(structure.pages[i]) || (i == 0 && forall j | 0 <= j < |structure.pages| ::
                                                      !IsHome(structure.pages[j])))
  {
    var pages := structure.pages;
    if |pages| > 0 {
      if exists i | 0 <= i < |pages| :: IsHome(pages[i]) {
        var i :| 0 <= i < |pages| && HomePage(pages) == Some(pages[i]) && IsHome(pages[i]);
        assert GenerateWebsiteHtml(structure, businessName, render, layout)
          == layout(PageSections(pages[i], render),
                    render(Footer, FooterContent(structure.footer, businessName)));
      } else {
        assert HomePage(pages) == Some(pages[0]);
      }
    }
  }

  /** A page named Home in capitals is the home page even behind other pages. */
  lemma CapitalisedHomeName(other: SitePage, home: SitePage)
    requires !IsHome(other) && home.name == "HOME"
    ensures HomePage([other, home]) == Some(home)
  {
    assert Lower("HOME") == "home";
    var pages := [other, home];
    assert IsHome(pages[1]);
    var i :| 0 <= i < |pages| && HomePage(pages) == Some(pages[i]) && IsHome(pages[i]);
    assert i == 1;
  }

  /** Every template of the site's table is one of the preview's. */
  lemma SiteWithinPreview(t: Template)
    requires t in SiteTemplates
    ensures t in PreviewGenerator.PreviewTemplates
  {
    PreviewGenerator.PreviewTemplatesCover(t);
  }

  /** Every section type the site renders is one the preview renders too, with the same
      template when the content is truthy. */
  lemma SiteAgreesWithPreview(t: Template, content: Json, render: (Template, Json) -> string)
    requires t in SiteTemplates && Truthy(content)
    ensures GenerateSection(Section(TemplateName(t), content), render)
         == PreviewGenerator.GenerateSection(
              Obj([Member("type", Str(TemplateName(t))), Member("content", content)]), render)
  {
    var section := Obj([Member("type", Str(TemplateName(t))), Member("content", content)]);
    assert Prop(section, "type") == Str(TemplateName(t));
    assert section.members[1..] == [Member("content", content)];
    assert Get(section.members[1..], "content") == content;
    assert "type" != "content";
    assert Prop(section, "content") == content;
    SiteWithinPreview(t);
  }

  /** The section types only the preview knows. */
  lemma PreviewOnlyTypes(t: Template)
    ensures t in PreviewGenerator.PreviewTemplates && t !in SiteTemplates
        <==> t in [PricingPreview, ServicesPreview, MenuPreview, Team, Stats]
  {
    PreviewGenerator.PreviewTemplatesCover(t);
  }

  /** A type without a template of the site, such as the preview-only ones, renders as
      the unknown-section comment naming it. */
  lemma MissingTemplateIsUnknown(t: Template, content: Json, render: (Template, Json) -> string)
    requires t !in SiteTemplates
    ensures GenerateSection(Section(TemplateName(t), content), render) == UnknownSection(TemplateName(t))
  {
    forall u | u in SiteTemplates ensures TemplateName(u) != TemplateName(t) {
      TemplateNameInjective(u, t);
    }
  }
}
