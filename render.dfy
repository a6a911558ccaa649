/** The decisions of `renderProduct` and `getSpecFieldsHTML`, with the
    rendered detail view given as structured data instead of markup. */
module Render {
  import opened Wrappers
  import opened Text
  import opened Registry
  import opened Loader

  /** One `modal-spec-item`: its caption (shown with a trailing colon) and
      its value. */
  datatype SpecField = SpecField(caption: string, value: string)

  /** The `modal-product-price` block: old price struck through beside the
      current price, or a single price. */
  datatype PriceView = OldAndCurrent(oldPrice: string, currentPrice: string) | PriceOnly(price: string)

  /** The `Colours: … | Thickness: …` line. */
  datatype ColoursLine = ColoursLine(colours: string, thickness: string)

  /** The content written into `.modal-content`, in document order. */
  datatype View = View(
    imageSrc: string,
    imageAlt: string,
    title: string,
    specs: seq<SpecField>,
    price: PriceView,
    colours: Option<ColoursLine>,
    descriptionTitle: string,
    paragraphs: seq<string>)

  /** The fixed, per-type field labels, in display order. */
  function SpecLayout(t: ProductType): (ls: seq<string>)
    ensures ls == [] <==> t == Unrecognised
    ensures forall i, j :: 0 <= i < j < |ls| ==> ls[i] != ls[j]
  {
    match t
    case Rubber => ["SPEED", "SPIN", "CONTROL", "STRATEGY", "HARDNESS"]
    case Bat => ["RUBBERS", "STRATEGY", "PLYS", "HANDLE"]
    case Blade => ["PLYS", "WEIGHT", "SPEED", "CONTROL"]
    case Accessory => ["TYPE", "MATERIAL", "SIZE"]
    case Unrecognised => []
  }

  /** A record's values in its declaration order, one per caption of the
      layout of each type the record fits. */
  function SpecValues(s: Specs): (vs: seq<string>)
    ensures forall t :: t != Unrecognised && SpecsFit(t, Some(s)) ==> |vs| == |SpecLayout(t)|
  {
    match s
    case RubberSpecs(speed, spin, control, strategy, hardness) => [speed, spin, control, strategy, hardness]
    case BatSpecs(rubbers, strategy, plys, handle) => [rubbers, strategy, plys, handle]
    case BladeSpecs(plys, weight, speed, control) => [plys, weight, speed, control]
    case AccessorySpecs(kind, material, size) => [kind, material, size]
  }

  function Labels(fields: seq<SpecField>): (ls: seq<string>)
    ensures |ls| == |fields|
    ensures forall i :: 0 <= i < |fields| ==> ls[i] == fields[i].caption
  {
    if fields == [] then [] else [fields[0].caption] + Labels(fields[1..])
  }

  /** `getSpecFieldsHTML`: the type's layout, each label paired with the
      record's field of that name; no fields for an unrecognised type. */
  function SpecFields(t: ProductType, specs: Option<Specs>): (fields: seq<SpecField>)
    requires SpecsFit(t, specs)
    ensures Labels(fields) == SpecLayout(t)
    ensures t != Unrecognised ==>
      forall i :: 0 <= i < |fields| ==> fields[i].value == SpecValues(specs.value)[i]
  {
    match t
    case Rubber =>
      var s := specs.value;
      [SpecField("SPEED", s.speed), SpecField("SPIN", s.spin), SpecField("CONTROL", s.control),
       SpecField("STRATEGY", s.strategy), SpecField("HARDNESS", s.hardness)]
    case Bat =>
      var s := specs.value;
      [SpecField("RUBBERS", s.rubbers), SpecField("STRATEGY", s.strategy),
       SpecField("PLYS", s.plys), SpecField("HANDLE", s.handle)]
    case Blade =>
      var s := specs.value;
      [SpecField("PLYS", s.plys), SpecField("WEIGHT", s.weight),
       SpecField("SPEED", s.speed), SpecField("CONTROL", s.control)]
    case Accessory =>
      var s := specs.value;
      [SpecField("TYPE", s.kind), SpecField("MATERIAL", s.material), SpecField("SIZE", s.size)]
    case Unrecognised => []
  }

  /** Two products of one page show the same labels in the same order. */
  lemma SpecLabelsFixedPerType(t: ProductType, a: Option<Specs>, b: Option<Specs>)
    requires SpecsFit(t, a) && SpecsFit(t, b)
    ensures Labels(SpecFields(t, a)) == Labels(SpecFields(t, b))
    ensures |SpecFields(t, a)| == |SpecFields(t, b)|
  {
  }

  /** `product.oldPrice ? old + current : product.price`. */
  function PriceBlock(p: Product): (v: PriceView)
    ensures v.OldAndCurrent? <==> p.oldPrice != ""
    ensures v.OldAndCurrent? ==> v.oldPrice == p.oldPrice && v.currentPrice == p.currentPrice
    ensures v.PriceOnly? ==> v.price == p.price
  {
    if p.oldPrice != "" then OldAndCurrent(p.oldPrice, p.currentPrice) else PriceOnly(p.price)
  }

  /** The colours and thickness line, shown for `rubber` pages only. */
  function ColoursBlock(t: ProductType, p: Product): (c: Option<ColoursLine>)
    ensures c.Some? <==> t == Rubber
    ensures c.Some? ==> c.value == ColoursLine(p.colours, p.thickness)
  {
    if t == Rubber then Some(ColoursLine(p.colours, p.thickness)) else None
  }

  /** `content.split('\n\n')`, each piece trimmed, blank pieces dropped. */
  function Paragraphs(content: string): (ps: seq<string>)
    ensures forall i :: 0 <= i < |ps| ==> ps[i] != [] && Trimmed(ps[i]) && !HasSeparator(ps[i])
  {
    KeepNonBlankNoSeparator(Split(content));
    KeepNonBlank(Split(content))
  }

  /** One paragraph per segment of the split whose trim is non-empty. */
  lemma ParagraphCount(content: string)
    ensures |Paragraphs(content)| == |NonBlankIndices(Split(content))|
  {
    KeepNonBlankCount(Split(content));
  }

  /** Splitting the paragraphs that were shown, joined back with blank
      lines, shows them again unchanged. */
  lemma ParagraphsStable(content: string)
    ensures Paragraphs(Join(Paragraphs(content))) == Paragraphs(content)
  {
    var ps := Paragraphs(content);
    if ps == [] {
      assert Split(Join(ps)) == [""];
    } else {
      forall i | 0 <= i < |ps| - 1 ensures ps[i] == [] || ps[i][|ps[i]| - 1] != '\n' {
        assert Trimmed(ps[i]);
      }
      SplitJoin(ps);
      KeepNonBlankKeepsParagraphs(ps);
    }
  }

  /** Splitting two pieces joined by a blank line gives the two pieces back
      when the first does not end in a line feed. */
  lemma SplitTwo(a: string, b: string)
    requires !HasSeparator(a) && !HasSeparator(b)
    requires a == [] || a[|a| - 1] != '\n'
    ensures Split(a + Separator + b) == [a, b]
  {
    SplitOfPiece(b);
    SplitAfterPiece(a, b);
  }

  lemma KeepTwo(a: string, b: string)
    requires a != [] && Trimmed(a) && b != [] && Trimmed(b)
    ensures KeepNonBlank([a, b]) == [a, b]
  {
    TrimFixesTrimmed(a);
    TrimFixesTrimmed(b);
    assert [a, b][1..] == [b] && [b][1..] == [];
  }

  /** Two trimmed paragraphs separated by a blank line give exactly those
      two paragraphs, in order. */
  lemma TwoParagraphs(a: string, b: string)
    requires a != [] && Trimmed(a) && !HasSeparator(a)
    requires b != [] && Trimmed(b) && !HasSeparator(b)
    ensures Paragraphs(a + Separator + b) == [a, b]
  {
    SplitTwo(a, b);
    KeepTwo(a, b);
  }

  lemma SplitThree(a: string, m: string, c: string)
    requires !HasSeparator(a) && !HasSeparator(m) && !HasSeparator(c)
    requires a == [] || a[|a| - 1] != '\n'
    requires m == [] || m[|m| - 1] != '\n'
    ensures Split(a + Separator + (m + Separator + c)) == [a, m, c]
  {
    SplitTwo(m, c);
    SplitAfterPiece(a, m + Separator + c);
  }

  lemma KeepMiddleBlank(a: string, blank: string, c: string)
    requires a != [] && Trimmed(a) && Blank(blank)
    ensures KeepNonBlank([a, blank, c]) == [a] + KeepNonBlank([c])
  {
    TrimFixesTrimmed(a);
    TrimEmptyIffBlank(blank);
    var s := [a, blank, c];
    assert s[0] == a && s[1..] == [blank, c];
    assert KeepNonBlank(s) == [a] + KeepNonBlank([blank, c]);
    assert [blank, c][0] == blank && [blank, c][1..] == [c];
    assert KeepNonBlank([blank, c]) == KeepNonBlank([c]);
  }

  /** A single segment is kept trimmed unless it is blank. */
  lemma KeepOne(c: string)
    ensures KeepNonBlank([c]) == if Trim(c) == [] then [] else [Trim(c)]
  {
    assert [c][1..] == [];
  }

  /** A segment of white space only between two others gives no paragraph;
      the last segment is kept trimmed unless it is blank too. */
  lemma BlankSegmentDropped(a: string, blank: string, c: string)
    requires a != [] && Trimmed(a) && !HasSeparator(a)
    requires Blank(blank) && !HasSeparator(blank) && (blank == [] || blank[|blank| - 1] != '\n')
    requires !HasSeparator(c)
    ensures Paragraphs(a + Separator + (blank + Separator + c)) == [a] + (if Trim(c) == [] then [] else [Trim(c)])
  {
    SplitThree(a, blank, c);
    KeepMiddleBlank(a, blank, c);
    KeepOne(c);
  }

  /** Empty content gives no paragraph at all. */
  lemma EmptyContentHasNoParagraphs()
    ensures Paragraphs("") == []
  {
  }

  /** `renderProduct` for one product of a page of type `t`. */
  function RenderProduct(t: ProductType, p: Product): (v: View)
    requires SpecsFit(t, p.specs)
    ensures Labels(v.specs) == SpecLayout(t)
    ensures v.price.OldAndCurrent? <==> p.oldPrice != ""
    ensures v.colours.Some? <==> t == Rubber
    ensures v.title == p.name && v.descriptionTitle == p.fullDescription.title
    ensures v.paragraphs == Paragraphs(p.fullDescription.content)
  {
    View(p.image, p.imageAlt, p.name, SpecFields(t, p.specs), PriceBlock(p), ColoursBlock(t, p),
         p.fullDescription.title, Paragraphs(p.fullDescription.content))
  }

  /** What the price block shows for a loaded card: both prices of the
      pricing element when its old price is non-empty, otherwise the
      current price alone. */
  lemma LoadedPriceView(tb: Tables, t: ProductType, card: Card)
    ensures var p := LoadProduct(tb, t, card);
      && (card.pricing.Some? && TrimmedText(card.pricing.value.oldPrice) != "" ==>
            PriceBlock(p) == OldAndCurrent(TrimmedText(card.pricing.value.oldPrice),
                                           TrimmedText(card.pricing.value.currentPrice)))
      && (card.pricing.None? || TrimmedText(card.pricing.value.oldPrice) == "" ==>
            PriceBlock(p) == PriceOnly(p.currentPrice))
  {
    PriceRules(tb, t, card);
    PriceIsCurrentPrice(tb, t, card);
  }

  /** On a rubber page the specification grid of `Tibhar K3 Pro` shows the
      rubber labels with that table row's values, and the colours line
      shows the shared tables' entries. */
  lemma RenderKnownRubber(p: Product)
    requires p.specs == ProductSpecs(SiteTables, Rubber, "Tibhar K3 Pro")
    requires p.colours == ProductColours(SiteTables, "Tibhar K3 Pro")
    requires p.thickness == ProductThickness(SiteTables, Rubber, "Tibhar K3 Pro")
    ensures var v := RenderProduct(Rubber, p);
      && v.specs == [SpecField("SPEED", "125"), SpecField("SPIN", "130"), SpecField("CONTROL", "90"),
                     SpecField("STRATEGY", "OFF+"), SpecField("HARDNESS", "55°")]
      && v.colours == Some(ColoursLine("Red, Black", "2.0mm and Max"))
  {
    KnownRubberEntries();
  }

  /** A bat page lists no colours line and the bat labels, here filled from
      the all-"N/A" default of an unlisted bat. */
  lemma RenderUnknownBat(p: Product)
    requires p.specs == ProductSpecs(SiteTables, Bat, "Foo Bar")
    ensures var v := RenderProduct(Bat, p);
      && v.specs == [SpecField("RUBBERS", "N/A"), SpecField("STRATEGY", "N/A"),
                     SpecField("PLYS", "N/A"), SpecField("HANDLE", "N/A")]
      && v.colours == None
  {
    assert BatSpecTable("Foo Bar").None?;
    assert p.specs == Some(BatSpecs("N/A", "N/A", "N/A", "N/A"));
  }
}
