/** The category schema: the page's product type, the per-type
    specification records, and the static description, specification,
    colour and thickness tables with their fallbacks. */
module Registry {
  import opened Wrappers
  import opened Text

  /** The modal's `productType`. Any tag other than the four known ones is
      `Unrecognised`: the `switch` statements send it to their `default`
      (rubber) branch, while the `=== 'rubber'` tests treat it as not rubber. */
  datatype ProductType = Rubber | Bat | Blade | Accessory | Unrecognised

  function ProductTypeOf(tag: string): (t: ProductType)
    ensures t == Rubber <==> tag == "rubber"
    ensures t == Bat <==> tag == "bat"
    ensures t == Blade <==> tag == "blade"
    ensures t == Accessory <==> tag == "accessory"
    ensures t == Unrecognised <==> tag !in {"rubber", "bat", "blade", "accessory"}
  {
    if tag == "rubber" then Rubber
    else if tag == "bat" then Bat
    else if tag == "blade" then Blade
    else if tag == "accessory" then Accessory
    else Unrecognised
  }

  /** One specification record per product type (the accessory field the
      source calls `type` is `kind` here). */
  datatype Specs =
    | RubberSpecs(speed: string, spin: string, control: string, strategy: string, hardness: string)
    | BatSpecs(rubbers: string, strategy: string, plys: string, handle: string)
    | BladeSpecs(plys: string, weight: string, speed: string, control: string)
    | AccessorySpecs(kind: string, material: string, size: string)

  /** The record shape a product type's layout expects. */
  predicate SpecsFit(t: ProductType, specs: Option<Specs>)
  {
    match t
    case Rubber => specs.Some? && specs.value.RubberSpecs?
    case Bat => specs.Some? && specs.value.BatSpecs?
    case Blade => specs.Some? && specs.value.BladeSpecs?
    case Accessory => specs.Some? && specs.value.AccessorySpecs?
    case Unrecognised => specs.None? || specs.value.RubberSpecs?
  }

  /** A full description: a heading and a body whose paragraphs are
      separated by blank lines. */
  datatype Description = Description(title: string, content: string)


  /** The static data the look-ups read: the per-type description and
      specification tables the `switch` statements choose between, the
      colour and thickness tables every type shares, and the generic body
      of an unlisted product's description. Each table is an object literal
      keyed by product name, written as its look-up: the entry for a name,
      or `None` when the object has no such key. */
  datatype Tables = Tables(
    rubberDescriptions: string -> Option<Description>,
    batDescriptions: string -> Option<Description>,
    bladeDescriptions: string -> Option<Description>,
    accessoryDescriptions: string -> Option<Description>,
    rubberSpecs: string -> Option<Specs>,
    batSpecs: string -> Option<Specs>,
    bladeSpecs: string -> Option<Specs>,
    accessorySpecs: string -> Option<Specs>,
    colours: string -> Option<string>,
    thickness: string -> Option<string>,
    genericContent: string)

  // The description bodies below keep the keys and titles of the site's
  // tables; each body is cut down to its opening sentence, so none holds
  // a paragraph break.

  function RubberDescriptions(name: string): Option<Description>
  {
    if name == "Tibhar K3 Pro" then Some(Description("TIBHAR HYBRID K3 PRO",
      "Perfectly adapted to the game of the uncompromising offensive player."))
    else if name == "Tibhar K3" then Some(Description("TIBHAR HYBRID K3",
      "The rubber HYBRID K3 combines characteristics that did not appear to be combinable until now."))
    else if name == "Tibhar MX-P" then Some(Description("TIBHAR EVOLUTION MX-P",
      "Right after its introduction the rubber MX-P was among the classical attacking rubbers."))
    else if name == "Tibhar FX-P" then Some(Description("TIBHAR EVOLUTION FX-P",
      "FX-P is the most flexible and soft version of the EVOLUTION rubber family."))
    else if name == "Joola Fire" then Some(Description("JOOLA RHYZEN FIRE",
      "Add a flame to your game with this latest generation offensive rubber."))
    else if name == "Joola Ice" then Some(Description("JOOLA RHYZEN ICE",
      "A variable all-round rubber for absolute coolness at the table JOOLA RHYZEN ICE has a coarse-pored 40° MOMENTUM sponge for excellent control and ball feel."))
    else if name == "Joola Zack" then Some(Description("JOOLA ZACK",
      "With the ZACK rubber, JOOLA is launching a classic rubber from German production that is specifically designed for all players who want to do without extreme catapult and extreme speed."))
    else if name == "Friendship 729" then Some(Description("FRIENDSHIP 729",
      "The 729 is a medium 43°sponge, controllable, chinese spinny rubber."))
    else None
  }

  function BatDescriptions(name: string): Option<Description>
  {
    if name == "Tibhar Carbon Attack" then Some(Description("TIBHAR CARBON ATTACK",
      "Tibhar Rapid Carbon light blade, fitted with Joola Rhyzen Fire and Ice, red and black rubbers."))
    else if name == "Chila Spin Attack" then Some(Description("TIBHAR CHILA SPIN ATTACK",
      "Tibhar Chila blade, fitted with Joola Zack 'Max' red and black rubbers."))
    else if name == "Bribar Winning Loop" then Some(Description("BRIBAR WINNING LOOP",
      "All-round Tibhar blade, fitted with Friendship 729 rubber, the rubber has medium speed, but high levels of control and spin."))
    else if name == "Yinhe Sunray" then Some(Description("BRIBAR YINHE SUNRAY BAT AND CASE",
      "Excellent value-for-money bat for a new player learning the basics of the sport."))
    else None
  }

  function BladeDescriptions(name: string): Option<Description>
  {
    if name == "Tibhar Felix Lebrun Hyper Inner Carbon Table Tennis Blade" then Some(Description("TIBHAR FELIX LEBRUN HYPER INNER CARBON",
      "The blade Felix Lebrun Hyper Carbon is as extraordinary as its homonym."))
    else if name == "Tibhar Rapid Carbon Light" then Some(Description("TIBHAR RAPID CARBON LIGHT",
      "The blade combines the lightness and extraordinary playing sensation of Balsa heart veneers with the power and precision of high-tech carbon fibres."))
    else if name == "Tibhar Chila Offensive" then Some(Description("TIBHAR CHILA OFFENSIVE",
      "The Tibhar Chila Offense is one of our most popular selling blade."))
    else if name == "Impact Precise Light" then Some(Description("IMPACT PRECISE LIGHT",
      "There has been a move towards light blades and the Precise Light is part of the IMPACT PRO range of blades."))
    else if name == "Impact Pure Allround" then Some(Description("IMPACT PURE ALLROUND",
      "The Pure Allround forms part of the IMPACT PURE range, combining top quality materials with great styling."))
    else None
  }

  /** The site has no accessory descriptions. */
  function AccessoryDescriptions(name: string): (e: Option<Description>)
    ensures e.None?
  {
    None
  }

  function RubberSpecTable(name: string): (e: Option<Specs>)
    ensures e.None? || e.value.RubberSpecs?
  {
    if name == "Tibhar K3 Pro" then Some(RubberSpecs("125", "130", "90", "OFF+", "55°"))
    else if name == "Tibhar K3" then Some(RubberSpecs("118", "130", "100", "OFF+", "53°"))
    else if name == "Tibhar MX-P" then Some(RubberSpecs("125", "120", "80", "OFF+", "47°"))
    else if name == "Tibhar FX-P" then Some(RubberSpecs("115", "120", "90", "OFF", "41°"))
    else if name == "Joola Fire" then Some(RubberSpecs("98", "116", "80", "OFF", "45°"))
    else if name == "Joola Ice" then Some(RubberSpecs("92", "115", "88", "OFF", "40°"))
    else if name == "Joola Zack" then Some(RubberSpecs("75", "100", "103", "ALL-ROUND", "42°"))
    else if name == "Friendship 729" then Some(RubberSpecs("50", "102", "100", "ALL-ROUND", "43°"))
    else None
  }

  function BatSpecTable(name: string): (e: Option<Specs>)
    ensures e.None? || e.value.BatSpecs?
  {
    if name == "Tibhar Carbon Attack" then Some(BatSpecs("Joola Rhyzen Fire 2.0mm<br>Joola Rhyzen Ice 2.0mm", "Offensive", "5", "Flare"))
    else if name == "Chila Spin Attack" then Some(BatSpecs("Joola Zack Max red<br>Joola Zack Max black", "Offensive", "5", "Flare"))
    else if name == "Bribar Winning Loop" then Some(BatSpecs("Friendship 2.0mm red<br>Friendship 2.0mm black", "All-Round +", "5", "Flare"))
    else if name == "Yinhe Sunray" then Some(BatSpecs("Yinhe 2.0mm red<br>Yinhe 2.0mm black", "All-Round", "5", "Flare"))
    else None
  }

  function BladeSpecTable(name: string): (e: Option<Specs>)
    ensures e.None? || e.value.BladeSpecs?
  {
    if name == "Tibhar Felix Lebrun Hyper Inner Carbon Table Tennis Blade" then Some(BladeSpecs("5+2", "85g", "93", "75"))
    else if name == "Tibhar Rapid Carbon Light" then Some(BladeSpecs("5+2", "75g", "102", "66"))
    else if name == "Tibhar Chila Offensive" then Some(BladeSpecs("5", "75g", "84", "75"))
    else if name == "Impact Precise Light" then Some(BladeSpecs("5", "75-80g", "72", "82"))
    else if name == "Impact Pure Allround" then Some(BladeSpecs("5", "95g", "60", "85"))
    else None
  }

  /** The site has no accessory specification records. */
  function AccessorySpecTable(name: string): (e: Option<Specs>)
    ensures e.None? || e.value.AccessorySpecs?
  {
    None
  }

  /** The shared `colors` table; every entry is a non-empty string, so the
      `||` fallback never hides one. */
  function ColourTable(name: string): (e: Option<string>)
    ensures e.Some? ==> e.value != ""
  {
    if name == "Tibhar K3 Pro" then Some("Red, Black")
    else if name == "Tibhar K3" then Some("Red, Black")
    else if name == "Tibhar MX-P" then Some("Red, Black")
    else if name == "Tibhar FX-P" then Some("Red, Black")
    else if name == "Joola Fire" then Some("Red, Black")
    else if name == "Joola Ice" then Some("Red, Black, Blue")
    else if name == "Joola Zack" then Some("Red, Black")
    else if name == "Friendship 729" then Some("Red, Black")
    else if name == "Tibhar Carbon Attack" then Some("Red/Black rubbers")
    else if name == "Chila Spin Attack" then Some("Red/Black rubbers")
    else None
  }

  /** The shared `thickness` table; every entry is a non-empty string. */
  function ThicknessTable(name: string): (e: Option<string>)
    ensures e.Some? ==> e.value != ""
  {
    if name == "Tibhar K3 Pro" then Some("2.0mm and Max")
    else if name == "Tibhar K3" then Some("2.0mm, Max")
    else if name == "Tibhar MX-P" then Some("2.1mm")
    else if name == "Tibhar FX-P" then Some("2.0mm")
    else if name == "Joola Fire" then Some("2.0mm")
    else if name == "Joola Ice" then Some("2.0mm")
    else if name == "Joola Zack" then Some("Max")
    else if name == "Friendship 729" then Some("2.0mm")
    else if name == "Tibhar Carbon Attack" then Some("N/A")
    else if name == "Chila Spin Attack" then Some("N/A")
    else None
  }

  /** The tables the site ships. */
  const SiteTables: Tables := Tables(
    RubberDescriptions, BatDescriptions, BladeDescriptions, AccessoryDescriptions,
    RubberSpecTable, BatSpecTable, BladeSpecTable, AccessorySpecTable,
    ColourTable, ThicknessTable,
    "High-quality table tennis equipment designed for competitive play. Contact us for detailed specifications and recommendations.")

  /** The description table the `switch` selects; its `default` is rubber. */
  function DescriptionTable(tb: Tables, t: ProductType): (f: string -> Option<Description>)
    ensures t == Bat ==> f == tb.batDescriptions
    ensures t == Blade ==> f == tb.bladeDescriptions
    ensures t == Accessory ==> f == tb.accessoryDescriptions
    ensures t != Bat && t != Blade && t != Accessory ==> f == tb.rubberDescriptions
  {
    match t
    case Bat => tb.batDescriptions
    case Blade => tb.bladeDescriptions
    case Accessory => tb.accessoryDescriptions
    case Rubber | Unrecognised => tb.rubberDescriptions
  }

  /** `getFullProductDescription`: the table entry when there is one, else a
      heading made of the upper-cased name over the generic body. */
  function FullDescription(tb: Tables, t: ProductType, name: string): (d: Description)
    ensures DescriptionTable(tb, t)(name).Some? ==> d == DescriptionTable(tb, t)(name).value
    ensures DescriptionTable(tb, t)(name).None? ==> d == Description(ToUpper(name), tb.genericContent)
  {
    match DescriptionTable(tb, t)(name)
    case Some(entry) => entry
    case None => Description(ToUpper(name), tb.genericContent)
  }

  /** The specification table the `switch` selects; its `default` is rubber. */
  function SpecTable(tb: Tables, t: ProductType): (f: string -> Option<Specs>)
    ensures t == Bat ==> f == tb.batSpecs
    ensures t == Blade ==> f == tb.bladeSpecs
    ensures t == Accessory ==> f == tb.accessorySpecs
    ensures t != Bat && t != Blade && t != Accessory ==> f == tb.rubberSpecs
  {
    match t
    case Bat => tb.batSpecs
    case Blade => tb.bladeSpecs
    case Accessory => tb.accessorySpecs
    case Rubber | Unrecognised => tb.rubberSpecs
  }

  /** Each specification table holds only records of its own type. */
  ghost predicate Shaped(tb: Tables)
  {
    && (forall name :: tb.rubberSpecs(name).None? || tb.rubberSpecs(name).value.RubberSpecs?)
    && (forall name :: tb.batSpecs(name).None? || tb.batSpecs(name).value.BatSpecs?)
    && (forall name :: tb.bladeSpecs(name).None? || tb.bladeSpecs(name).value.BladeSpecs?)
    && (forall name :: tb.accessorySpecs(name).None? || tb.accessorySpecs(name).value.AccessorySpecs?)
  }

  /** The site's tables are shaped. */
  lemma SiteTablesShaped()
    ensures Shaped(SiteTables)
  {
  }

  /** Every field of the record is "N/A". */
  predicate AllNA(s: Specs)
  {
    match s
    case RubberSpecs(speed, spin, control, strategy, hardness) =>
      speed == "N/A" && spin == "N/A" && control == "N/A" && strategy == "N/A" && hardness == "N/A"
    case BatSpecs(rubbers, strategy, plys, handle) =>
      rubbers == "N/A" && strategy == "N/A" && plys == "N/A" && handle == "N/A"
    case BladeSpecs(plys, weight, speed, control) =>
      plys == "N/A" && weight == "N/A" && speed == "N/A" && control == "N/A"
    case AccessorySpecs(kind, material, size) =>
      kind == "N/A" && material == "N/A" && size == "N/A"
  }

  /** `defaultSpecs[this.productType]`: an all-"N/A" record for the four
      known types, `undefined` for any other tag. */
  function DefaultSpecs(t: ProductType): (d: Option<Specs>)
    ensures d.None? <==> t == Unrecognised
    ensures d.Some? ==> AllNA(d.value)
    ensures t != Unrecognised ==> SpecsFit(t, d)
  {
    match t
    case Rubber => Some(RubberSpecs("N/A", "N/A", "N/A", "N/A", "N/A"))
    case Bat => Some(BatSpecs("N/A", "N/A", "N/A", "N/A"))
    case Blade => Some(BladeSpecs("N/A", "N/A", "N/A", "N/A"))
    case Accessory => Some(AccessorySpecs("N/A", "N/A", "N/A"))
    case Unrecognised => None
  }

  /** In shaped tables every entry of a type's table has that type's
      record shape. */
  lemma SpecTableFits(tb: Tables, t: ProductType, name: string)
    requires Shaped(tb) && SpecTable(tb, t)(name).Some?
    ensures SpecsFit(t, SpecTable(tb, t)(name))
  {
  }

  /** `getProductSpecs`: the table entry, else the type's default. With
      shaped tables the result has the shape the type's layout expects. */
  function ProductSpecs(tb: Tables, t: ProductType, name: string): (s: Option<Specs>)
    ensures Shaped(tb) ==> SpecsFit(t, s)
    ensures SpecTable(tb, t)(name).Some? ==> s == SpecTable(tb, t)(name)
    ensures SpecTable(tb, t)(name).None? ==> s == DefaultSpecs(t)
  {
    var entry := SpecTable(tb, t)(name);
    if entry.Some? then
      assert Shaped(tb) ==> SpecsFit(t, entry) by {
        if Shaped(tb) { SpecTableFits(tb, t, name); }
      }
      entry
    else DefaultSpecs(t)
  }

  const DefaultColours: string := "Red, Black"

  /** `table[name] || fallback`: an entry counts only when it is a
      non-empty (truthy) string. */
  function LookupOr(entry: Option<string>, fallback: string): (r: string)
    ensures entry.Some? && entry.value != "" ==> r == entry.value
    ensures !(entry.Some? && entry.value != "") ==> r == fallback
  {
    if entry.Some? && entry.value != "" then entry.value else fallback
  }

  /** `getProductColors`: independent of the product type, never empty. */
  function ProductColours(tb: Tables, name: string): (c: string)
    ensures c != ""
    ensures tb.colours(name).Some? && tb.colours(name).value != "" ==> c == tb.colours(name).value
    ensures !(tb.colours(name).Some? && tb.colours(name).value != "") ==> c == DefaultColours
  {
    LookupOr(tb.colours(name), DefaultColours)
  }

  /** The thickness fallback: only a `rubber` page gets a real default. */
  function DefaultThickness(t: ProductType): string
  {
    if t == Rubber then "2.0mm and Max" else "N/A"
  }

  /** `getProductThickness`: the shared table, else the per-type fallback. */
  function ProductThickness(tb: Tables, t: ProductType, name: string): (r: string)
    ensures r != ""
    ensures tb.thickness(name).Some? && tb.thickness(name).value != "" ==> r == tb.thickness(name).value
    ensures !(tb.thickness(name).Some? && tb.thickness(name).value != "") ==>
      r == (if t == Rubber then "2.0mm and Max" else "N/A")
  {
    LookupOr(tb.thickness(name), DefaultThickness(t))
  }

  /** A listed name's thickness does not depend on the page's type; only
      the fallback does. */
  lemma ThicknessTableIsShared(tb: Tables, t1: ProductType, t2: ProductType, name: string)
    ensures tb.thickness(name).Some? && tb.thickness(name).value != ""
            ==> ProductThickness(tb, t1, name) == ProductThickness(tb, t2, name)
    ensures tb.thickness(name).None? && (t1 == Rubber <==> t2 == Rubber)
            ==> ProductThickness(tb, t1, name) == ProductThickness(tb, t2, name)
    ensures tb.thickness(name).None? && t1 == Rubber && t2 != Rubber
            ==> ProductThickness(tb, t1, name) != ProductThickness(tb, t2, name)
  {
  }

  /** An unrecognised tag reads the rubber tables but has no default record. */
  lemma UnrecognisedUsesRubberTables(tb: Tables, name: string)
    ensures FullDescription(tb, Unrecognised, name) == FullDescription(tb, Rubber, name)
    ensures tb.rubberSpecs(name).Some? ==> ProductSpecs(tb, Unrecognised, name) == ProductSpecs(tb, Rubber, name)
    ensures tb.rubberSpecs(name).None? ==> ProductSpecs(tb, Unrecognised, name) == None
    ensures ProductThickness(tb, Unrecognised, name) == ProductThickness(tb, Bat, name)
  {
  }

  /** The site's accessory tables are empty: every accessory gets the
      defaults. */
  lemma AccessoryAlwaysDefaults(name: string)
    ensures FullDescription(SiteTables, Accessory, name) == Description(ToUpper(name), SiteTables.genericContent)
    ensures ProductSpecs(SiteTables, Accessory, name) == Some(AccessorySpecs("N/A", "N/A", "N/A"))
  {
  }

  /** Concrete entries of the site's tables. */
  lemma KnownRubberEntries()
    ensures ProductSpecs(SiteTables, Rubber, "Tibhar K3 Pro") == Some(RubberSpecs("125", "130", "90", "OFF+", "55°"))
    ensures FullDescription(SiteTables, Rubber, "Tibhar K3 Pro").title == "TIBHAR HYBRID K3 PRO"
    ensures ProductColours(SiteTables, "Joola Ice") == "Red, Black, Blue"
    ensures ProductThickness(SiteTables, Rubber, "Joola Zack") == "Max"
  {
  }

  /** An unlisted rubber gets the fallback description and record. */
  lemma UnknownRubberFallsBack()
    ensures FullDescription(SiteTables, Rubber, "Foo Bar") == Description("FOO BAR", SiteTables.genericContent)
    ensures ProductSpecs(SiteTables, Rubber, "Foo Bar") == Some(RubberSpecs("N/A", "N/A", "N/A", "N/A", "N/A"))
  {
  }

  /** An unlisted name gets the default colours, and the thickness
      fallback of its page's type. */
  lemma UnknownNameSharedDefaults()
    ensures ProductColours(SiteTables, "Foo Bar") == "Red, Black"
    ensures ProductThickness(SiteTables, Rubber, "Foo Bar") == "2.0mm and Max"
    ensures ProductThickness(SiteTables, Blade, "Foo Bar") == "N/A"
  {
  }

  /** The colour and thickness tables are shared, so a bat's entry shows on
      any page, and a rubber's thickness is the same on a blade page. */
  lemma SharedTablesCrossTypes()
    ensures ProductColours(SiteTables, "Tibhar Carbon Attack") == "Red/Black rubbers"
    ensures ProductThickness(SiteTables, Rubber, "Tibhar Carbon Attack") == "N/A"
    ensures ProductThickness(SiteTables, Blade, "Tibhar MX-P") == "2.1mm"
  {
  }
}
