/** The catalog loader: turns each product card already in the page into a
    product record, resolving the registry look-ups once at load time. */
module Loader {
  import opened Wrappers
  import opened Text
  import opened Registry

  /** The `<img class="product-image">` of a card: its `src` and `alt`,
      which the loader takes untrimmed. */
  datatype Image = Image(src: string, alt: string)

  /** The `.product-pricing` element: its optional `.price-old` and
      `.price-current` children, as raw text content. */
  datatype Pricing = Pricing(oldPrice: Option<string>, currentPrice: Option<string>)

  /** A `.product-card` as the loader sees it: every part may be absent;
      present text parts are raw `textContent`. */
  datatype Card = Card(
    name: Option<string>,
    image: Option<Image>,
    description: Option<string>,
    price: Option<string>,
    pricing: Option<Pricing>)

  /** One loaded product. `price` is the backward-compatible single price. */
  datatype Product = Product(
    name: string,
    image: string,
    imageAlt: string,
    description: string,
    price: string,
    oldPrice: string,
    currentPrice: string,
    fullDescription: Description,
    specs: Option<Specs>,
    colours: string,
    thickness: string)

  /** `el ? el.textContent.trim() : ''`. */
  function TrimmedText(el: Option<string>): (r: string)
    ensures el.None? ==> r == ""
    ensures el.Some? ==> r == Trim(el.value)
  {
    if el.Some? then Trim(el.value) else ""
  }

  /** The three price strings `(price, oldPrice, currentPrice)`: the pricing
      element wins over the single price element. */
  function CardPrices(card: Card): (r: (string, string, string))
    ensures r.0 == r.2
    ensures card.pricing.Some? ==>
      r.1 == TrimmedText(card.pricing.value.oldPrice) && r.2 == TrimmedText(card.pricing.value.currentPrice)
    ensures card.pricing.None? ==> r.1 == "" && r.2 == TrimmedText(card.price)
  {
    if card.pricing.Some? then
      var current := TrimmedText(card.pricing.value.currentPrice);
      (current, TrimmedText(card.pricing.value.oldPrice), current)
    else if card.price.Some? then
      var single := TrimmedText(card.price);
      (single, "", single)
    else ("", "", "")
  }

  /** The `map` callback of `loadProductData`, reading the tables `tb`. */
  function LoadProduct(tb: Tables, t: ProductType, card: Card): (p: Product)
    ensures Shaped(tb) ==> SpecsFit(t, p.specs)
  {
    var name := TrimmedText(card.name);
    var (price, oldPrice, currentPrice) := CardPrices(card);
    Product(
      name,
      if card.image.Some? then card.image.value.src else "",
      if card.image.Some? then card.image.value.alt else "",
      TrimmedText(card.description),
      price, oldPrice, currentPrice,
      FullDescription(tb, t, name),
      ProductSpecs(tb, t, name),
      ProductColours(tb, name),
      ProductThickness(tb, t, name))
  }

  /** `Array.from(cards).map(...)`. */
  function LoadProducts(tb: Tables, t: ProductType, cards: seq<Card>): (ps: seq<Product>)
    ensures |ps| == |cards|
  {
    if cards == [] then [] else [LoadProduct(tb, t, cards[0])] + LoadProducts(tb, t, cards[1..])
  }

  /** The catalog keeps document order: product `i` comes from card `i`. */
  lemma {:induction false} LoadProductsAt(tb: Tables, t: ProductType, cards: seq<Card>, i: nat)
    requires i < |cards|
    ensures LoadProducts(tb, t, cards)[i] == LoadProduct(tb, t, cards[i])
  {
    var rest := cards[1..];
    assert LoadProducts(tb, t, cards) == [LoadProduct(tb, t, cards[0])] + LoadProducts(tb, t, rest);
    if i > 0 {
      LoadProductsAt(tb, t, rest, i - 1);
      assert rest[i - 1] == cards[i];
    }
  }

  /** Every loaded record has the record shape its page's type expects. */
  predicate AllFit(t: ProductType, products: seq<Product>)
  {
    forall i :: 0 <= i < |products| ==> SpecsFit(t, products[i].specs)
  }

  /** With shaped tables every loaded record fits the page's type. */
  lemma LoadedCatalogFits(tb: Tables, t: ProductType, cards: seq<Card>)
    requires Shaped(tb)
    ensures AllFit(t, LoadProducts(tb, t, cards))
  {
    forall i | 0 <= i < |cards| ensures SpecsFit(t, LoadProducts(tb, t, cards)[i].specs) {
      LoadProductsAt(tb, t, cards, i);
    }
  }

  /** The price precedence of the loader. */
  lemma PriceRules(tb: Tables, t: ProductType, card: Card)
    ensures var p := LoadProduct(tb, t, card);
      && (card.pricing.Some? ==>
            && p.oldPrice == TrimmedText(card.pricing.value.oldPrice)
            && p.currentPrice == TrimmedText(card.pricing.value.currentPrice)
            && p.price == p.currentPrice)
      && (card.pricing.None? && card.price.Some? ==>
            p.price == p.currentPrice == Trim(card.price.value) && p.oldPrice == "")
      && (card.pricing.None? && card.price.None? ==>
            p.price == p.oldPrice == p.currentPrice == "")
  {
  }

  /** Whatever the card holds, the single price equals the current price,
      and an old price can only come from a pricing element. */
  lemma PriceIsCurrentPrice(tb: Tables, t: ProductType, card: Card)
    ensures LoadProduct(tb, t, card).price == LoadProduct(tb, t, card).currentPrice
    ensures LoadProduct(tb, t, card).oldPrice != "" ==> card.pricing.Some?
  {
  }

  /** Missing name, image and description degrade to empty strings; the
      look-ups then run on the empty name. */
  lemma MissingPartsAreEmpty(tb: Tables, t: ProductType, card: Card)
    ensures card.name.None? ==> LoadProduct(tb, t, card).name == ""
    ensures card.image.None? ==> LoadProduct(tb, t, card).image == "" && LoadProduct(tb, t, card).imageAlt == ""
    ensures card.description.None? ==> LoadProduct(tb, t, card).description == ""
    ensures var p := LoadProduct(tb, t, card);
      && p.fullDescription == FullDescription(tb, t, p.name)
      && p.specs == ProductSpecs(tb, t, p.name)
      && p.colours == ProductColours(tb, p.name)
      && p.thickness == ProductThickness(tb, t, p.name)
  {
  }

  /** Name and description are trimmed; the image is taken verbatim. */
  lemma TextIsTrimmed(tb: Tables, t: ProductType, card: Card)
    ensures Trimmed(LoadProduct(tb, t, card).name)
    ensures Trimmed(LoadProduct(tb, t, card).description)
    ensures card.image.Some? ==> LoadProduct(tb, t, card).image == card.image.value.src
  {
  }

  /** A pricing element without a current price leaves every displayed
      price empty even when the card also has a single price element. */
  lemma PricingWithoutCurrentHidesSinglePrice(tb: Tables, t: ProductType, card: Card)
    requires card.pricing.Some? && card.pricing.value.currentPrice.None?
    ensures LoadProduct(tb, t, card).price == "" && LoadProduct(tb, t, card).currentPrice == ""
  {
  }
}
