/**
 * The item extractor: turns the product cards of one fully loaded catalog page
 * into product records, one per card and in card order.
 *
 * A card is described by what its element queries return; `None` stands for a
 * query that matched nothing, `Some(s)` for a matched element whose text
 * content (or, for the image, whose resolved `src`) is `s`.
 */
module Extractor {
  import opened Wrappers

  /** What the per-card element queries return. */
  datatype Card = Card(
    price: Option<string>,       // `[data-component="Price"]`
    priceBrief: Option<string>,  // `[data-component="PriceBrief"]`
    title: Option<string>,       // `[data-component="ProductCardDescription"]`
    image: Option<string>,       // `[data-component="ProductCardImagePrimary"]`, its `src`
    brand: Option<string>,       // `[data-component="ProductCardBrandName"]`
    sizes: Option<string>        // `[data-component="ProductCardSizesAvailable"]`
  )

  /** One emitted product record: all five fields are present. */
  datatype Product = Product(price: string, title: string, image: string, brand: string, sizes: string)

  /** The required elements of a card, named by the field they fill. */
  datatype Element = Price | Title | Image | Brand | Sizes

  /** Why extracting a page failed: the first card that lacks a required element, and that element. */
  datatype ExtractError = MissingElement(card: nat, element: Element)

  /** Whether the card offers the element: the price is offered by either price element. */
  predicate Present(c: Card, e: Element) {
    match e
    case Price => c.price.Some? || c.priceBrief.Some?
    case Title => c.title.Some?
    case Image => c.image.Some?
    case Brand => c.brand.Some?
    case Sizes => c.sizes.Some?
  }

  /** The order in which the extractor dereferences the elements of a card. */
  function Rank(e: Element): nat {
    match e
    case Price => 0
    case Title => 1
    case Image => 2
    case Brand => 3
    case Sizes => 4
  }

  /**
   * Extracts one card. A missing element is dereferenced as `null`, which
   * throws; the failure names the first missing element in dereference order.
   */
  function ExtractCard(c: Card): (r: Result<Product, Element>)
    ensures r.Failure? ==> !Present(c, r.error) && forall e :: Rank(e) < Rank(r.error) ==> Present(c, e)
    ensures r.Success? <==> forall e :: Present(c, e)
    ensures r.Success? ==>
      && c.title == Some(r.value.title)
      && c.image == Some(r.value.image)
      && c.brand == Some(r.value.brand)
      && c.sizes == Some(r.value.sizes)
    // the primary price element wins; the brief price is only a fallback
    ensures r.Success? && c.price.Some? ==> c.price == Some(r.value.price)
    ensures r.Success? && c.price.None? ==> c.priceBrief == Some(r.value.price)
  {
    var priceEl := if c.price.Some? then c.price else c.priceBrief;
    if priceEl.None? then Failure(Price)
    else if c.title.None? then Failure(Title)
    else if c.image.None? then Failure(Image)
    else if c.brand.None? then Failure(Brand)
    else if c.sizes.None? then Failure(Sizes)
    else Success(Product(priceEl.value, c.title.value, c.image.value, c.brand.value, c.sizes.value))
  }

  /**
   * Extracts every card of a page: either one record per card, in card order,
   * or the failure of the first card that cannot be extracted (no partial list).
   */
  function ExtractAll(cards: seq<Card>): (r: Result<seq<Product>, ExtractError>)
    ensures r.Success? <==> forall i :: 0 <= i < |cards| ==> ExtractCard(cards[i]).Success?
    ensures r.Success? ==>
      && |r.value| == |cards|
      && forall i :: 0 <= i < |cards| ==> r.value[i] == ExtractCard(cards[i]).value
    ensures r.Failure? ==>
      && r.error.card < |cards|
      && ExtractCard(cards[r.error.card]) == Failure(r.error.element)
      && forall i :: 0 <= i < r.error.card ==> ExtractCard(cards[i]).Success?
  {
    if cards == [] then Success([])
    else
      var n := |cards| - 1;
      match ExtractAll(cards[..n])
      case Failure(err) => Failure(err)
      case Success(items) =>
        match ExtractCard(cards[n])
        case Failure(e) => Failure(MissingElement(n, e))
        case Success(p) => Success(items + [p])
  }

  /**
   * `getAllItems`: walks the cards in order and pushes one record per card
   * onto the accumulator; the first card that cannot be extracted aborts it.
   */
  method GetAllItems(cards: seq<Card>) returns (r: Result<seq<Product>, ExtractError>)
    ensures r == ExtractAll(cards)
  {
    var productItems: seq<Product> := [];
    for i := 0 to |cards|
      invariant ExtractAll(cards[..i]) == Success(productItems)
    {
      assert cards[..i + 1][..i] == cards[..i];
      var prod := ExtractCard(cards[i]);
      if prod.Failure? {
        assert ExtractAll(cards[..i + 1]) == Failure(MissingElement(i, prod.error));
        ExtractAllFailsFrom(cards, i + 1);
        return Failure(MissingElement(i, prod.error));
      }
      productItems := productItems + [prod.value];
    }
    assert cards[..|cards|] == cards;
    r := Success(productItems);
  }

  /** Once a prefix of the cards fails, every longer prefix fails with the same error. */
  lemma {:induction false} ExtractAllFailsFrom(cards: seq<Card>, n: nat)
    requires n <= |cards|
    requires ExtractAll(cards[..n]).Failure?
    ensures ExtractAll(cards) == ExtractAll(cards[..n])
    decreases |cards| - n
  {
    if n < |cards| {
      assert cards[..n + 1][..n] == cards[..n];
      ExtractAllFailsFrom(cards, n + 1);
    } else {
      assert cards[..n] == cards;
    }
  }
}
