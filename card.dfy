/** The course card's display rules: the discount percentage and the badges,
    the tag list, and the struck-through original price. */
module CourseCard {
  import opened Common

  /** The fields of the card's `course` prop that the rules read. */
  datatype CardCourse = CardCourse(
    price: real,
    originalPrice: Option<real>,
    tags: Option<seq<string>>,
    isBestseller: Option<bool>,
    isNew: Option<bool>)

  /** `Math.round`: the nearest integer, halves rounded up. */
  function Round(x: real): int
  {
    (x + 0.5).Floor
  }

  /** Truthiness of an optional number (NaN aside): present and not 0. */
  predicate PriceTruthy(p: Option<real>)
  {
    p.Some? && p.value != 0.0
  }

  /** The percentage saved against the original price, rounded; 0 without
      an original price. */
  function Discount(c: CardCourse): int
  {
    if PriceTruthy(c.originalPrice) then
      Round((c.originalPrice.value - c.price) / c.originalPrice.value * 100.0)
    else 0
  }

  /** The "% OFF" badge. */
  predicate ShowsDiscountBadge(c: CardCourse)
  {
    Discount(c) > 0
  }

  /** The badge shows exactly when there is an original price and the saving
      is at least half a percent of it. */
  lemma DiscountBadgeRule(c: CardCourse)
    ensures !PriceTruthy(c.originalPrice) ==> Discount(c) == 0
    ensures ShowsDiscountBadge(c) <==>
      PriceTruthy(c.originalPrice) &&
      (c.originalPrice.value - c.price) / c.originalPrice.value * 100.0 >= 0.5
  {
  }

  /** A price at or above a positive original price gives no badge; a price
      between 0 and the original gives a discount between 0 and 100. */
  lemma DiscountBounds(c: CardCourse)
    requires c.originalPrice.Some? && c.originalPrice.value > 0.0
    ensures c.price >= c.originalPrice.value ==> !ShowsDiscountBadge(c)
    ensures 0.0 <= c.price <= c.originalPrice.value ==> 0 <= Discount(c) <= 100
  {
    var o := c.originalPrice.value;
    var ratio := (o - c.price) / o;
    assert (o - c.price) / o * 100.0 == ratio * 100.0;
    if c.price >= o {
      assert ratio <= 0.0;
    }
    if 0.0 <= c.price <= o {
      assert 0.0 <= ratio <= 1.0;
    }
  }

  lemma DiscountExample()
    ensures Discount(CardCourse(80.0, Some(100.0), None, None, None)) == 20
    ensures Discount(CardCourse(99.6, Some(100.0), None, None, None)) == 0
    ensures Discount(CardCourse(99.5, Some(100.0), None, None, None)) == 1
  {
  }

  /** The tag row: absent without tags, otherwise the first three in order. */
  function VisibleTags(tags: Option<seq<string>>): Option<seq<string>>
  {
    if tags.Some? && |tags.value| > 0 then Some(Prefix(tags.value, 3)) else None
  }

  lemma VisibleTagsRule(tags: Option<seq<string>>)
    ensures VisibleTags(tags).Some? <==> tags.Some? && tags.value != []
    ensures VisibleTags(tags).Some? ==>
      var shown := VisibleTags(tags).value;
      && |shown| == (if |tags.value| < 3 then |tags.value| else 3)
      && shown == tags.value[..|shown|]
  {
  }

  /** What the original-price slot puts on the page. */
  datatype PriceSlot = Nothing | TextNode(text: string) | StruckPrice(price: real)

  /** `{course.originalPrice && <span>…</span>}` as written: `0 && x` is 0,
      and React writes a number child out as text. */
  function StruckPriceAsWritten(originalPrice: Option<real>): PriceSlot
  {
    if originalPrice.None? then Nothing
    else if originalPrice.value == 0.0 then TextNode("0")
    else StruckPrice(originalPrice.value)
  }

  /** An original price of 0 puts a bare "0" beside the price. */
  lemma ZeroOriginalPriceShowsZero()
    ensures StruckPriceAsWritten(Some(0.0)) == TextNode("0")
  {
  }

  /** The slot as intended: the struck price when the original price is
      truthy, nothing otherwise. */
  function StruckPriceSlot(originalPrice: Option<real>): PriceSlot
  {
    if PriceTruthy(originalPrice) then StruckPrice(originalPrice.value) else Nothing
  }

  /** The struck price shows exactly when the discount is computed from an
      original price, and no stray text is ever written. */
  lemma StruckPriceRule(c: CardCourse)
    ensures StruckPriceSlot(c.originalPrice).StruckPrice? <==> PriceTruthy(c.originalPrice)
    ensures !StruckPriceSlot(c.originalPrice).TextNode?
    ensures StruckPriceSlot(c.originalPrice).StruckPrice? ==>
      StruckPriceSlot(c.originalPrice).price == c.originalPrice.value
    ensures StruckPriceSlot(c.originalPrice) == StruckPriceAsWritten(c.originalPrice) <==>
      c.originalPrice != Some(0.0)
    ensures ShowsDiscountBadge(c) ==> StruckPriceSlot(c.originalPrice).StruckPrice?
  {
  }

  /** `course.isBestseller && …`, `course.isNew && …` */
  predicate ShowsBestsellerBadge(c: CardCourse)
  {
    c.isBestseller == Some(true)
  }

  predicate ShowsNewBadge(c: CardCourse)
  {
    c.isNew == Some(true)
  }

  /** One badge of the column over the card's image. */
  datatype Badge = BestsellerBadge | NewBadge | OffBadge(percent: int)

  /** The position a badge takes in the column. */
  function Rank(b: Badge): int
  {
    match b
    case BestsellerBadge => 0
    case NewBadge => 1
    case OffBadge(_) => 2
  }

  /** The badge column, top to bottom. */
  function Badges(c: CardCourse): seq<Badge>
  {
    (if ShowsBestsellerBadge(c) then [BestsellerBadge] else []) +
    (if ShowsNewBadge(c) then [NewBadge] else []) +
    (if ShowsDiscountBadge(c) then [OffBadge(Discount(c))] else [])
  }

  /** Each badge shows exactly when its own condition holds, the discount
      badge carries the rounded percentage, and the column keeps the order
      bestseller, new, discount with no badge twice. */
  lemma BadgeColumnRule(c: CardCourse)
    ensures BestsellerBadge in Badges(c) <==> c.isBestseller == Some(true)
    ensures NewBadge in Badges(c) <==> c.isNew == Some(true)
    ensures (exists p :: OffBadge(p) in Badges(c)) <==> Discount(c) > 0
    ensures forall p :: OffBadge(p) in Badges(c) ==> p == Discount(c) && p > 0
    ensures forall i, j :: 0 <= i < j < |Badges(c)| ==> Rank(Badges(c)[i]) < Rank(Badges(c)[j])
  {
    if Discount(c) > 0 {
      assert OffBadge(Discount(c)) in Badges(c);
    }
  }
}
