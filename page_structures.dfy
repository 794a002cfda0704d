/** The page structures of src/lib/website/page-structures.ts: a fixed table of
    site layouts per business type, the lookup of a layout from a free-form type
    name, and the keyword classification of a business prompt. */
module PageStructures {
  import opened Collections
  import opened Strings

  /** `PageConfig` (the optional description is never set in the table). */
  datatype Page = Page(name: string, slug: string, sections: seq<string>)

  /** `PageStructureConfig`. */
  datatype StructureConfig = StructureConfig(pages: seq<Page>, requiredSections: Option<seq<string>>,
                                             primaryCTA: Option<string>)

  datatype Entry = Entry(key: string, config: StructureConfig)

  /** `BUSINESS_PAGE_STRUCTURES`, in declaration order. */
  const Structures: seq<Entry> := [
    Entry("law_firm", StructureConfig([
      Page("Home", "/", ["hero", "services_preview", "testimonials", "stats", "cta"]),
      Page("Practice Areas", "/practice-areas", ["hero", "services", "cta"]),
      Page("Our Team", "/team", ["hero", "team", "about"]),
      Page("Case Results", "/results", ["hero", "stats", "testimonials"]),
      Page("Contact", "/contact", ["hero", "contact", "location"])],
      Some(["hero", "services", "contact"]), Some("/contact"))),
    Entry("accounting", StructureConfig([
      Page("Home", "/", ["hero", "services_preview", "features", "testimonials", "cta"]),
      Page("Services", "/services", ["hero", "services", "pricing", "cta"]),
      Page("About Us", "/about", ["hero", "about", "team"]),
      Page("Contact", "/contact", ["hero", "contact", "location"])],
      None, Some("/contact"))),
    Entry("consulting", StructureConfig([
      Page("Home", "/", ["hero", "services_preview", "testimonials", "cta"]),
      Page("Services", "/services", ["hero", "services", "pricing"]),
      Page("Case Studies", "/case-studies", ["hero", "testimonials", "stats"]),
      Page("About", "/about", ["hero", "about", "team"]),
      Page("Contact", "/contact", ["hero", "contact"])],
      None, Some("/contact"))),
    Entry("restaurant", StructureConfig([
      Page("Home", "/", ["hero", "menu_preview", "gallery", "testimonials", "location"]),
      Page("Menu", "/menu", ["hero", "menu"]),
      Page("About", "/about", ["hero", "about", "gallery"]),
      Page("Contact", "/contact", ["hero", "contact", "location"])],
      None, Some("/menu"))),
    Entry("cafe", StructureConfig([
      Page("Home", "/", ["hero", "menu_preview", "gallery", "testimonials"]),
      Page("Menu", "/menu", ["hero", "menu"]),
      Page("About", "/about", ["hero", "about"]),
      Page("Contact", "/contact", ["hero", "contact", "location"])],
      None, Some("/menu"))),
    Entry("bakery", StructureConfig([
      Page("Home", "/", ["hero", "products", "gallery", "testimonials"]),
      Page("Our Products", "/products", ["hero", "products"]),
      Page("About", "/about", ["hero", "about", "gallery"]),
      Page("Contact", "/contact", ["hero", "contact", "location"])],
      None, Some("/products"))),
    Entry("saas", StructureConfig([
      Page("Home", "/", ["hero", "features", "pricing_preview", "testimonials", "cta"]),
      Page("Features", "/features", ["hero", "features", "cta"]),
      Page("Pricing", "/pricing", ["hero", "pricing", "faq"]),
      Page("About", "/about", ["hero", "about", "team"]),
      Page("Contact", "/contact", ["hero", "contact"])],
      None, Some("/pricing"))),
    Entry("tech_startup", StructureConfig([
      Page("Home", "/", ["hero", "features", "testimonials", "stats", "cta"]),
      Page("Product", "/product", ["hero", "features", "pricing"]),
      Page("About", "/about", ["hero", "about", "team"]),
      Page("Contact", "/contact", ["hero", "contact"])],
      None, Some("/product"))),
    Entry("agency", StructureConfig([
      Page("Home", "/", ["hero", "services_preview", "gallery", "testimonials", "cta"]),
      Page("Services", "/services", ["hero", "services", "pricing"]),
      Page("Portfolio", "/portfolio", ["hero", "gallery"]),
      Page("About", "/about", ["hero", "about", "team"]),
      Page("Contact", "/contact", ["hero", "contact"])],
      None, Some("/contact"))),
    Entry("ecommerce", StructureConfig([
      Page("Home", "/", ["hero", "products", "features", "testimonials", "cta"]),
      Page("Shop", "/shop", ["hero", "products"]),
      Page("About", "/about", ["hero", "about"]),
      Page("Contact", "/contact", ["hero", "contact", "faq"])],
      None, Some("/shop"))),
    Entry("retail", StructureConfig([
      Page("Home", "/", ["hero", "products", "testimonials", "location"]),
      Page("Products", "/products", ["hero", "products"]),
      Page("About", "/about", ["hero", "about", "gallery"]),
      Page("Contact", "/contact", ["hero", "contact", "location"])],
      None, Some("/products"))),
    Entry("gym", StructureConfig([
      Page("Home", "/", ["hero", "services_preview", "pricing_preview", "testimonials", "cta"]),
      Page("Classes", "/classes", ["hero", "services", "pricing"]),
      Page("Trainers", "/trainers", ["hero", "team"]),
      Page("About", "/about", ["hero", "about", "gallery"]),
      Page("Contact", "/contact", ["hero", "contact", "location"])],
      None, Some("/classes"))),
    Entry("spa", StructureConfig([
      Page("Home", "/", ["hero", "services_preview", "gallery", "testimonials", "cta"]),
      Page("Services", "/services", ["hero", "services", "pricing"]),
      Page("About", "/about", ["hero", "about", "team"]),
      Page("Contact", "/contact", ["hero", "contact", "location"])],
      None, Some("/services"))),
    Entry("salon", StructureConfig([
      Page("Home", "/", ["hero", "services_preview", "gallery", "testimonials", "cta"]),
      Page("Services", "/services", ["hero", "services", "pricing"]),
      Page("Gallery", "/gallery", ["hero", "gallery"]),
      Page("Contact", "/contact", ["hero", "contact", "location"])],
      None, Some("/contact"))),
    Entry("healthcare", StructureConfig([
      Page("Home", "/", ["hero", "services_preview", "team", "testimonials", "cta"]),
      Page("Services", "/services", ["hero", "services"]),
      Page("Our Doctors", "/doctors", ["hero", "team"]),
      Page("About", "/about", ["hero", "about"]),
      Page("Contact", "/contact", ["hero", "contact", "location"])],
      None, Some("/contact"))),
    Entry("dental", StructureConfig([
      Page("Home", "/", ["hero", "services_preview", "team", "testimonials", "cta"]),
      Page("Services", "/services", ["hero", "services", "pricing"]),
      Page("Our Team", "/team", ["hero", "team"]),
      Page("Contact", "/contact", ["hero", "contact", "location"])],
      None, Some("/contact"))),
    Entry("real_estate", StructureConfig([
      Page("Home", "/", ["hero", "services_preview", "testimonials", "stats", "cta"]),
      Page("Services", "/services", ["hero", "services"]),
      Page("Listings", "/listings", ["hero", "gallery"]),
      Page("About", "/about", ["hero", "about", "team"]),
      Page("Contact", "/contact", ["hero", "contact"])],
      None, Some("/contact"))),
    Entry("school", StructureConfig([
      Page("Home", "/", ["hero", "features", "testimonials", "stats", "cta"]),
      Page("Programs", "/programs", ["hero", "services"]),
      Page("About", "/about", ["hero", "about", "team"]),
      Page("Contact", "/contact", ["hero", "contact", "location"])],
      None, Some("/programs"))),
    Entry("tutoring", StructureConfig([
      Page("Home", "/", ["hero", "services_preview", "testimonials", "pricing_preview", "cta"]),
      Page("Services", "/services", ["hero", "services", "pricing"]),
      Page("About", "/about", ["hero", "about", "team"]),
      Page("Contact", "/contact", ["hero", "contact"])],
      None, Some("/contact"))),
    Entry("default", DefaultConfig)
  ]

  /** The keys of the table, in declaration order. */
  function StructureKeys(entries: seq<Entry>): (r: seq<string>)
    ensures |r| == |entries| && forall i | 0 <= i < |entries| :: r[i] == entries[i].key
  {
    if |entries| == 0 then [] else [entries[0].key] + StructureKeys(entries[1..])
  }

  /** `BUSINESS_PAGE_STRUCTURES[key]`: the entry with that key, if there is one. */
  function Lookup(entries: seq<Entry>, key: string): (r: Option<StructureConfig>)
    ensures r.Some? <==> key in StructureKeys(entries)
    ensures r.Some? ==> exists i | 0 <= i < |entries| :: entries[i].key == key && entries[i].config == r.value
  {
    if |entries| == 0 then None
    else if entries[0].key == key then Some(entries[0].config)
    else Lookup(entries[1..], key)
  }

  /** `BUSINESS_PAGE_STRUCTURES.default`, the layout used when nothing matches. */
  const DefaultConfig: StructureConfig :=
    StructureConfig([
      Page("Home", "/", ["hero", "services", "testimonials", "cta"]),
      Page("About", "/about", ["hero", "about"]),
      Page("Contact", "/contact", ["hero", "contact"])],
      None, Some("/contact"))

  /** One character of the normalisation: white space and `-` become `_`. */
  function NormalizeChar(c: char): char {
    if IsSpace(c) || c == '-' then '_' else c
  }

  function MapNormalize(s: string): (r: string)
    ensures |r| == |s| && forall i | 0 <= i < |s| :: r[i] == NormalizeChar(s[i])
  {
    if |s| == 0 then [] else [NormalizeChar(s[0])] + MapNormalize(s[1..])
  }

  /** `businessType.toLowerCase().replace(/[\s-]/g, '_')`. */
  function Normalize(s: string): (r: string)
    ensures |r| == |s|
    ensures forall i | 0 <= i < |r| :: !IsSpace(r[i]) && r[i] != '-' && !('A' <= r[i] <= 'Z')
  {
    MapNormalize(Lower(s))
  }

  /** The partial-match test of `getPageStructure`. */
  predicate Overlaps(key: string, normalized: string) {
    Contains(normalized, key) || Contains(key, normalized)
  }

  /** The first entry whose key overlaps the normalised name. */
  function FirstOverlap(entries: seq<Entry>, normalized: string): (r: Option<nat>)
    ensures r.Some? ==> (r.value < |entries| && Overlaps(entries[r.value].key, normalized) &&
      forall j | 0 <= j < r.value :: !Overlaps(entries[j].key, normalized))
    ensures r.None? ==> forall j | 0 <= j < |entries| :: !Overlaps(entries[j].key, normalized)
  {
    if |entries| == 0 then None
    else if Overlaps(entries[0].key, normalized) then Some(0)
    else
      var rest := FirstOverlap(entries[1..], normalized);
      if rest.Some? then Some(rest.value + 1) else None
  }

  /** The choice `getPageStructure` makes in a table for a normalised name: a name
      that is a key gets that key's layout; any other gets the layout of the first
      key, in table order, that it contains or that contains it; a name overlapping
      no key gets the fallback. */
  function Select(entries: seq<Entry>, fallback: StructureConfig, n: string): (r: StructureConfig)
    ensures n in StructureKeys(entries) ==> Lookup(entries, n) == Some(r)
    ensures n !in StructureKeys(entries) ==>
      (exists i | 0 <= i < |entries| :: Overlaps(entries[i].key, n) && r == entries[i].config &&
         forall j | 0 <= j < i :: !Overlaps(entries[j].key, n)) ||
      ((forall j | 0 <= j < |entries| :: !Overlaps(entries[j].key, n)) && r == fallback)
  {
    var exact := Lookup(entries, n);
    if exact.Some? then exact.value
    else
      var i := FirstOverlap(entries, n);
      if i.Some? then entries[i.value].config else fallback
  }

  /** `getPageStructure` (page-structures.ts:229-245). */
  function GetPageStructure(businessType: string): StructureConfig {
    Select(Structures, DefaultConfig, Normalize(businessType))
  }

  /** A key is made of lower-case letters and `_`. */
  predicate KeyChars(s: string) {
    forall i | 0 <= i < |s| :: 'a' <= s[i] <= 'z' || s[i] == '_'
  }

  /** Normalising leaves such a name unchanged. */
  lemma NormalizeKey(s: string)
    requires KeyChars(s)
    ensures Normalize(s) == s
  {
    assert forall i | 0 <= i < |s| :: Normalize(s)[i] == NormalizeChar(LowerChar(s[i]));
  }

  /** The keys of the table, in table order. */
  const KeyNames: seq<string> :=
    ["law_firm", "accounting", "consulting", "restaurant", "cafe", "bakery", "saas",
     "tech_startup", "agency", "ecommerce", "retail", "gym", "spa", "salon", "healthcare",
     "dental", "real_estate", "school", "tutoring", "default"]

  lemma KeyNamesAreKeys()
    ensures |Structures| == |KeyNames|
    ensures forall i | 0 <= i < |Structures| :: Structures[i].key == KeyNames[i]
  {
  }

  /** Every key of the table is non-empty and made of key characters. */
  lemma KeysShape()
    ensures forall i | 0 <= i < |Structures| :: |Structures[i].key| > 0 && KeyChars(Structures[i].key)
  {
    KeyNamesAreKeys();
    KeyNamesShape();
  }

  lemma KeyNamesShape()
    ensures forall i | 0 <= i < |KeyNames| :: |KeyNames[i]| > 0 && KeyChars(KeyNames[i])
  {
  }

  /** Every layout of the table starts with a page at `/`. */
  lemma FirstPagesAreHome()
    ensures forall i | 0 <= i < |Structures| ::
      |Structures[i].config.pages| > 0 && Structures[i].config.pages[0].slug == "/"
  {
  }

  /** An empty business type matches no key exactly, but every key contains the
      empty string, so the first layout of the table, the law firm's, is chosen. */
  lemma EmptyTypeIsLawFirm()
    ensures GetPageStructure("") == Structures[0].config
  {
    KeysShape();
    assert Normalize("") == "";
    ContainsEmpty(Structures[0].key);
    assert Lookup(Structures, "").None?;
  }

  /** `classifyBusinessType`'s table entry: a business type and its keywords. */
  datatype Keywords = Keywords(businessType: string, words: seq<string>)

  /** The `keywords` table of `classifyBusinessType`, in declaration order. */
  const KeywordTable: seq<Keywords> := [
    Keywords("law_firm", ["law", "attorney", "lawyer", "legal", "litigation", "injury", "criminal defense"]),
    Keywords("accounting", ["accounting", "accountant", "tax", "bookkeeping", "cpa", "audit"]),
    Keywords("consulting", ["consulting", "consultant", "advisory", "strategy"]),
    Keywords("restaurant", ["restaurant", "dining", "eatery", "bistro", "grill"]),
    Keywords("cafe", ["cafe", "coffee", "coffeehouse", "espresso"]),
    Keywords("bakery", ["bakery", "pastry", "bread", "cupcake", "cake shop"]),
    Keywords("saas", ["saas", "software", "app", "platform", "tool", "api"]),
    Keywords("tech_startup", ["startup", "tech company", "technology"]),
    Keywords("agency", ["agency", "marketing", "creative", "design agency", "advertising"]),
    Keywords("ecommerce", ["ecommerce", "online store", "shop online", "dropshipping"]),
    Keywords("retail", ["retail", "store", "boutique", "shop"]),
    Keywords("gym", ["gym", "fitness", "workout", "training center", "crossfit"]),
    Keywords("spa", ["spa", "massage", "wellness center", "relaxation"]),
    Keywords("salon", ["salon", "hair", "beauty", "barber", "nails"]),
    Keywords("healthcare", ["clinic", "medical", "doctor", "healthcare", "hospital"]),
    Keywords("dental", ["dental", "dentist", "orthodontist", "teeth"]),
    Keywords("real_estate", ["real estate", "realtor", "property", "broker", "homes"]),
    Keywords("school", ["school", "academy", "education", "learning center"]),
    Keywords("tutoring", ["tutor", "tutoring", "lessons", "coaching"])
  ]

  /** Some keyword of the list occurs in the text. */
  predicate AnyOccurs(words: seq<string>, text: string) {
    exists w | w in words :: Contains(text, w)
  }

  /** The first table entry with a keyword that occurs in the text. */
  function FirstKeywordMatch(table: seq<Keywords>, text: string): (r: Option<nat>)
    ensures r.Some? ==> (r.value < |table| && AnyOccurs(table[r.value].words, text) &&
      forall j | 0 <= j < r.value :: !AnyOccurs(table[j].words, text))
    ensures r.None? ==> forall j | 0 <= j < |table| :: !AnyOccurs(table[j].words, text)
  {
    if |table| == 0 then None
    else if AnyOccurs(table[0].words, text) then Some(0)
    else
      var rest := FirstKeywordMatch(table[1..], text);
      if rest.Some? then Some(rest.value + 1) else None
  }

  /** `classifyBusinessType` (page-structures.ts:264-299). */
  function ClassifyBusinessType(prompt: string): string {
    var i := FirstKeywordMatch(KeywordTable, Lower(prompt));
    if i.Some? then KeywordTable[i.value].businessType else "default"
  }

  /** The business types of the keyword table are, in the same order, the first keys
      of the layout table. */
  lemma KeywordTypesAreKeys()
    ensures |KeywordTable| < |Structures|
    ensures forall t | 0 <= t < |KeywordTable| :: KeywordTable[t].businessType == Structures[t].key
    ensures Structures[|Structures| - 1].key == "default"
  {
  }

  /** Every classification names a layout of the table, and looking that name up
      takes the exact-match branch. */
  lemma ClassifiedHasLayout(prompt: string)
    ensures var t := ClassifyBusinessType(prompt);
      t in StructureKeys(Structures) && Normalize(t) == t &&
      Some(GetPageStructure(t)) == Lookup(Structures, t)
  {
    KeywordTypesAreKeys();
    KeysShape();
    var t := ClassifyBusinessType(prompt);
    var i := FirstKeywordMatch(KeywordTable, Lower(prompt));
    var k := if i.Some? then i.value else |Structures| - 1;
    assert Structures[k].key == t;
    assert StructureKeys(Structures)[k] == t;
    NormalizeKey(t);
  }
}
