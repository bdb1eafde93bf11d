/** The catalogue's filter panel: six sections, each expanded or collapsed
    by its header button, showing its options only while expanded. */
module FilterPanel {

  datatype SectionKey = CategoryKey | LevelKey | PriceKey | RatingKey | DurationKey | FeaturesKey

  /** The `expandedSections` record as a value. */
  datatype Expansion = Expansion(
    category: bool, level: bool, price: bool, rating: bool, duration: bool, features: bool)

  function Get(e: Expansion, k: SectionKey): bool
  {
    match k
    case CategoryKey => e.category
    case LevelKey => e.level
    case PriceKey => e.price
    case RatingKey => e.rating
    case DurationKey => e.duration
    case FeaturesKey => e.features
  }

  /** `{ ...prev, [section]: !prev[section] }` */
  function Toggled(e: Expansion, k: SectionKey): Expansion
  {
    match k
    case CategoryKey => e.(category := !e.category)
    case LevelKey => e.(level := !e.level)
    case PriceKey => e.(price := !e.price)
    case RatingKey => e.(rating := !e.rating)
    case DurationKey => e.(duration := !e.duration)
    case FeaturesKey => e.(features := !e.features)
  }

  /** Toggling flips the one key and leaves the other five as they were. */
  lemma ToggleFlipsOnlyThatKey(e: Expansion, k: SectionKey, other: SectionKey)
    ensures Get(Toggled(e, k), k) == !Get(e, k)
    ensures other != k ==> Get(Toggled(e, k), other) == Get(e, other)
  {
  }

  /** Toggling the same section twice restores the panel. */
  lemma ToggleTwiceRestores(e: Expansion, k: SectionKey)
    ensures Toggled(Toggled(e, k), k) == e
  {
  }

  /** Toggles of different sections commute. */
  lemma TogglesCommute(e: Expansion, k: SectionKey, other: SectionKey)
    ensures Toggled(Toggled(e, k), other) == Toggled(Toggled(e, other), k)
  {
  }

  /** The panel's state, one field per section. */
  class Panel {
    var category: bool
    var level: bool
    var price: bool
    var rating: bool
    var duration: bool
    var features: bool

    /** Every section starts expanded. */
    constructor ()
      ensures Snapshot() == Expansion(true, true, true, true, true, true)
    {
      category, level, price := true, true, true;
      rating, duration, features := true, true, true;
    }

    function Snapshot(): Expansion
      reads this
    {
      Expansion(category, level, price, rating, duration, features)
    }

    /** A section's options are rendered exactly while it is expanded. */
    predicate ShowsOptions(k: SectionKey)
      reads this
    {
      Get(Snapshot(), k)
    }

    method ToggleSection(k: SectionKey)
      modifies this
      ensures Snapshot() == Toggled(old(Snapshot()), k)
    {
      match k
      case CategoryKey => category := !category;
      case LevelKey => level := !level;
      case PriceKey => price := !price;
      case RatingKey => rating := !rating;
      case DurationKey => duration := !duration;
      case FeaturesKey => features := !features;
    }
  }
}
