/**
  * The parsed recipe the renderer consumes. Steps refer to flat, recipe-owned tables
  * (ingredients, cookware, timers, inline quantities) by index.
  */
module Cooklang {
  import opened Wrappers

  /** A quantity: its value in its textual form and an optional unit. */
  datatype Quantity = Quantity(value: string, unit: Option<string>)

  /** Quantities of one ingredient summed so far; incompatible units stay separate entries. */
  type GroupedQuantity = seq<Quantity>

  /** The unit-conversion collaborator; `add` merges a quantity into a running total. */
  datatype Converter = Converter(add: (GroupedQuantity, Quantity) -> GroupedQuantity)

  /**
    * An ingredient table entry: the name that identifies it for aggregation, the name it
    * is shown with in a step, its quantity and its two modifier flags.
    */
  datatype IngredientEntry = IngredientEntry(
    name: string,
    displayName: string,
    quantity: Option<Quantity>,
    isOptional: bool,
    shouldBeListed: bool)

  datatype CookwareEntry = CookwareEntry(name: string, quantity: Option<Quantity>)

  datatype TimerEntry = TimerEntry(name: Option<string>, quantity: Option<Quantity>)

  /** One piece of a step; all but `Text` refer to a table entry by index. */
  datatype Item =
    | Text(value: string)
    | Ingredient(index: nat)
    | Cookware(index: nat)
    | Timer(index: nat)
    | InlineQuantity(index: nat)

  /** A section's content entry: a step made of items, or a free paragraph. */
  datatype Content = Step(items: seq<Item>) | Paragraph(text: string)

  datatype Section = Section(name: Option<string>, content: seq<Content>)

  /** The metadata the renderer reads; the times are whole minutes. */
  datatype Metadata = Metadata(
    title: Option<string>,
    description: Option<string>,
    servings: Option<string>,
    prepTime: Option<nat>,
    cookTime: Option<nat>)

  datatype Recipe = Recipe(
    metadata: Metadata,
    sections: seq<Section>,
    ingredients: seq<IngredientEntry>,
    cookware: seq<CookwareEntry>,
    timers: seq<TimerEntry>,
    inlineQuantities: seq<Quantity>)

  /** An item's index is in its table, and a timer it names has a name or a quantity. */
  predicate ValidItem(r: Recipe, item: Item) {
    match item
    case Text(_) => true
    case Ingredient(i) => i < |r.ingredients|
    case Cookware(i) => i < |r.cookware|
    case Timer(i) => i < |r.timers| && (r.timers[i].name.Some? || r.timers[i].quantity.Some?)
    case InlineQuantity(i) => i < |r.inlineQuantities|
  }

  predicate ValidItems(r: Recipe, items: seq<Item>) {
    forall j :: 0 <= j < |items| ==> ValidItem(r, items[j])
  }

  predicate ValidContent(r: Recipe, cs: seq<Content>) {
    forall c :: 0 <= c < |cs| ==> cs[c].Step? ==> ValidItems(r, cs[c].items)
  }

  /** Every reference of every step resolves, as the parser guarantees. */
  predicate Valid(r: Recipe) {
    forall s :: 0 <= s < |r.sections| ==> ValidContent(r, r.sections[s].content)
  }
}
