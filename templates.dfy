/** The section templates both page generators draw on.  Their markup is not part of
    this model: a template is named by a constructor, and the text it renders for a
    given content object is a function the generators take as a parameter. */
module Templates {
  import opened Collections
  import opened JsonValues

  datatype Template =
    | Hero | Features | Pricing | PricingPreview | Testimonials | Cta | Faq | Contact
    | About | Services | ServicesPreview | Menu | MenuPreview | Gallery | Location
    | Products | Team | Stats | Footer

  /** The section `type` string that selects each template. */
  function TemplateName(t: Template): string {
    match t
    case Hero => "hero"
    case Features => "features"
    case Pricing => "pricing"
    case PricingPreview => "pricing_preview"
    case Testimonials => "testimonials"
    case Cta => "cta"
    case Faq => "faq"
    case Contact => "contact"
    case About => "about"
    case Services => "services"
    case ServicesPreview => "services_preview"
    case Menu => "menu"
    case MenuPreview => "menu_preview"
    case Gallery => "gallery"
    case Location => "location"
    case Products => "products"
    case Team => "team"
    case Stats => "stats"
    case Footer => "footer"
  }

  /** No two templates share a name, so a name selects at most one template. */
  lemma TemplateNameInjective(t: Template, u: Template)
    ensures TemplateName(t) == TemplateName(u) ==> t == u
  {
  }

  /** The template of `table` whose name is `name`, if there is one. */
  function Dispatch(table: seq<Template>, name: string): (r: Option<Template>)
    ensures r.Some? ==> r.value in table && TemplateName(r.value) == name
    ensures r.None? <==> forall t | t in table :: TemplateName(t) != name
  {
    match FirstIndex(table, t => TemplateName(t) == name)
    case None => None
    case Some(i) => Some(table[i])
  }

  /** Dispatch finds every template of its table by that template's name. */
  lemma DispatchFinds(table: seq<Template>, t: Template)
    requires t in table
    ensures Dispatch(table, TemplateName(t)) == Some(t)
  {
    var r := Dispatch(table, TemplateName(t));
    TemplateNameInjective(r.value, t);
  }
}
