/**
  * `get_ingredients_by_section`: per section, the ingredient mentions of its steps grouped
  * by ingredient name, each group keeping the table index and entry of the name's first
  * mention and the sum of its quantities, the groups ordered by that index.
  */
module Aggregate {
  import opened Wrappers
  import opened Cooklang
  import opened Strings

  /** One group: the first mention's table index and entry, and the quantities summed so far. */
  datatype GroupedIngredient = GroupedIngredient(index: nat, ingredient: IngredientEntry, quantity: GroupedQuantity)

  // ---------------------------------------------------------------------------
  // The mentions a section's steps make, in order

  function ItemMention(item: Item): seq<nat> {
    match item
    case Ingredient(i) => [i]
    case _ => []
  }

  /** The table indices of the ingredient items among `items`, in order. */
  function ItemMentions(items: seq<Item>): seq<nat> {
    if items == [] then [] else ItemMentions(items[..|items| - 1]) + ItemMention(items[|items| - 1])
  }

  function ContentMention(c: Content): seq<nat> {
    match c
    case Step(items) => ItemMentions(items)
    case Paragraph(_) => []
  }

  /** The ingredient mentions of the steps among `cs`, in order; paragraphs mention nothing. */
  function ContentMentions(cs: seq<Content>): seq<nat> {
    if cs == [] then [] else ContentMentions(cs[..|cs| - 1]) + ContentMention(cs[|cs| - 1])
  }

  predicate InTable(table: seq<IngredientEntry>, ms: seq<nat>) {
    forall k :: 0 <= k < |ms| ==> ms[k] < |table|
  }

  lemma {:induction false} ItemMentionsInTable(r: Recipe, items: seq<Item>)
    requires ValidItems(r, items)
    ensures InTable(r.ingredients, ItemMentions(items))
    decreases |items|
  {
    if items != [] {
      ItemMentionsInTable(r, items[..|items| - 1]);
      assert ValidItem(r, items[|items| - 1]);
    }
  }

  lemma {:induction false} ContentMentionsInTable(r: Recipe, cs: seq<Content>)
    requires ValidContent(r, cs)
    ensures InTable(r.ingredients, ContentMentions(cs))
    decreases |cs|
  {
    if cs != [] {
      var last := cs[|cs| - 1];
      ContentMentionsInTable(r, cs[..|cs| - 1]);
      if last.Step? {
        ItemMentionsInTable(r, last.items);
      }
    }
  }

  // ---------------------------------------------------------------------------
  // The name -> group map the walk builds

  /**
    * One mention: insert a fresh group for a new name (`or_insert` leaves an existing
    * group alone), then add the mention's quantity, if it has one, through the oracle.
    */
  function Mention(table: seq<IngredientEntry>, conv: Converter, m: map<string, GroupedIngredient>, index: nat)
    : map<string, GroupedIngredient>
    requires index < |table|
  {
    var ingredient := table[index];
    var g := if ingredient.name in m then m[ingredient.name] else GroupedIngredient(index, ingredient, []);
    m[ingredient.name := match ingredient.quantity
      case Some(q) => g.(quantity := conv.add(g.quantity, q))
      case None => g]
  }

  /** The map after walking the mentions `ms` in order from an empty map. */
  function GroupMap(table: seq<IngredientEntry>, conv: Converter, ms: seq<nat>): map<string, GroupedIngredient>
    requires InTable(table, ms)
  {
    if ms == [] then map[] else Mention(table, conv, GroupMap(table, conv, ms[..|ms| - 1]), ms[|ms| - 1])
  }

  /** The names the mentions `ms` refer to. */
  function Names(table: seq<IngredientEntry>, ms: seq<nat>): set<string>
    requires InTable(table, ms)
  {
    set k | 0 <= k < |ms| :: table[ms[k]].name
  }

  /** The position of the first mention of `name` in `ms`, or `|ms|` when there is none. */
  function FirstPos(table: seq<IngredientEntry>, ms: seq<nat>, name: string): (p: nat)
    requires InTable(table, ms)
    ensures p <= |ms|
    ensures p < |ms| ==> table[ms[p]].name == name
    ensures forall k :: 0 <= k < p ==> table[ms[k]].name != name
  {
    if ms == [] then 0
    else if table[ms[0]].name == name then 0
    else 1 + FirstPos(table, ms[1..], name)
  }

  /** The quantities the mentions of `name` in `ms` carry, in order. */
  function NamedQuantities(table: seq<IngredientEntry>, ms: seq<nat>, name: string): seq<Quantity>
    requires InTable(table, ms)
  {
    if ms == [] then []
    else
      var e := table[ms[|ms| - 1]];
      NamedQuantities(table, ms[..|ms| - 1], name)
        + (if e.name == name && e.quantity.Some? then [e.quantity.value] else [])
  }

  /** `qs` added one after another, through the oracle, to an empty grouped quantity. */
  function AddAll(conv: Converter, qs: seq<Quantity>): GroupedQuantity {
    if qs == [] then [] else conv.add(AddAll(conv, qs[..|qs| - 1]), qs[|qs| - 1])
  }

  /** Every group is keyed by its entry's name, and its entry is the table entry at its index. */
  predicate Coherent(table: seq<IngredientEntry>, m: map<string, GroupedIngredient>) {
    forall n :: n in m ==> m[n].index < |table| && m[n].ingredient == table[m[n].index] && m[n].ingredient.name == n
  }

  lemma {:induction false} GroupMapCoherent(table: seq<IngredientEntry>, conv: Converter, ms: seq<nat>)
    requires InTable(table, ms)
    ensures Coherent(table, GroupMap(table, conv, ms))
    decreases |ms|
  {
    if ms != [] {
      GroupMapCoherent(table, conv, ms[..|ms| - 1]);
    }
  }

  /** There is exactly one group per name mentioned, and no other. */
  lemma {:induction false} GroupMapKeys(table: seq<IngredientEntry>, conv: Converter, ms: seq<nat>)
    requires InTable(table, ms)
    ensures GroupMap(table, conv, ms).Keys == Names(table, ms)
    decreases |ms|
  {
    if ms != [] {
      var init := ms[..|ms| - 1];
      GroupMapKeys(table, conv, init);
      assert Names(table, ms) == Names(table, init) + {table[ms[|ms| - 1]].name} by {
        forall n | n in Names(table, ms) ensures n in Names(table, init) + {table[ms[|ms| - 1]].name} {
          var k :| 0 <= k < |ms| && table[ms[k]].name == n;
          if k < |ms| - 1 {
            assert init[k] == ms[k];
          }
        }
        forall n | n in Names(table, init) ensures n in Names(table, ms) {
          var k :| 0 <= k < |init| && table[init[k]].name == n;
          assert ms[k] == init[k];
        }
      }
    }
  }

  lemma FirstPosSnoc(table: seq<IngredientEntry>, ms: seq<nat>, index: nat, name: string)
    requires InTable(table, ms) && index < |table|
    requires InTable(table, ms + [index])
    ensures FirstPos(table, ms, name) < |ms| ==> FirstPos(table, ms + [index], name) == FirstPos(table, ms, name)
    ensures FirstPos(table, ms, name) == |ms| ==> FirstPos(table, ms + [index], name) == |ms| + (if table[index].name == name then 0 else 1)
  {
    var p, q := FirstPos(table, ms, name), FirstPos(table, ms + [index], name);
    var s := ms + [index];
    assert forall k :: 0 <= k < |ms| ==> s[k] == ms[k];
    if p < |ms| {
      assert s[p] == ms[p];
      assert q <= p;
    } else {
      assert s[|ms|] == index;
      assert forall k :: 0 <= k < |ms| ==> table[s[k]].name != name;
    }
  }

  /** Each group keeps the table index of its name's first mention: later mentions never replace it. */
  lemma {:induction false} GroupMapFirst(table: seq<IngredientEntry>, conv: Converter, ms: seq<nat>, name: string)
    requires InTable(table, ms)
    requires name in GroupMap(table, conv, ms)
    ensures FirstPos(table, ms, name) < |ms|
    ensures GroupMap(table, conv, ms)[name].index == ms[FirstPos(table, ms, name)]
    decreases |ms|
  {
    var init, last := ms[..|ms| - 1], ms[|ms| - 1];
    assert ms == init + [last];
    FirstPosSnoc(table, init, last, name);
    if name in GroupMap(table, conv, init) {
      GroupMapFirst(table, conv, init, name);
      assert ms[FirstPos(table, init, name)] == init[FirstPos(table, init, name)];
    } else {
      GroupMapKeys(table, conv, init);
      assert forall k :: 0 <= k < |init| ==> table[init[k]].name in Names(table, init);
      assert FirstPos(table, init, name) == |init|;
    }
  }

  /** Each group's quantity is the oracle sum, in mention order, of exactly its name's quantities. */
  lemma {:induction false} GroupMapQuantity(table: seq<IngredientEntry>, conv: Converter, ms: seq<nat>, name: string)
    requires InTable(table, ms)
    requires name in GroupMap(table, conv, ms)
    ensures GroupMap(table, conv, ms)[name].quantity == AddAll(conv, NamedQuantities(table, ms, name))
    decreases |ms|
  {
    var init, last := ms[..|ms| - 1], ms[|ms| - 1];
    var qs := NamedQuantities(table, init, name);
    if name in GroupMap(table, conv, init) {
      GroupMapQuantity(table, conv, init, name);
    } else {
      assert qs == [] by {
        NoMentionNoQuantities(table, conv, init, name);
      }
    }
    var e := table[last];
    if e.name == name && e.quantity.Some? {
      assert NamedQuantities(table, ms, name) == qs + [e.quantity.value];
      assert (qs + [e.quantity.value])[..|qs|] == qs;
    } else {
      assert NamedQuantities(table, ms, name) == qs;
    }
  }

  /** A name without a group has no quantities among the mentions. */
  lemma {:induction false} NoMentionNoQuantities(table: seq<IngredientEntry>, conv: Converter, ms: seq<nat>, name: string)
    requires InTable(table, ms)
    requires name !in GroupMap(table, conv, ms)
    ensures NamedQuantities(table, ms, name) == []
    decreases |ms|
  {
    if ms != [] {
      NoMentionNoQuantities(table, conv, ms[..|ms| - 1], name);
    }
  }

  /** Mentions without a quantity leave a group's quantity empty, however many there are. */
  lemma NoQuantityNoFragment(table: seq<IngredientEntry>, conv: Converter, ms: seq<nat>, name: string)
    requires InTable(table, ms)
    requires name in GroupMap(table, conv, ms)
    requires forall k :: 0 <= k < |ms| ==> table[ms[k]].name == name ==> table[ms[k]].quantity.None?
    ensures GroupMap(table, conv, ms)[name].quantity == []
  {
    GroupMapQuantity(table, conv, ms, name);
    NamedQuantitiesNone(table, ms, name);
  }

  lemma {:induction false} NamedQuantitiesNone(table: seq<IngredientEntry>, ms: seq<nat>, name: string)
    requires InTable(table, ms)
    requires forall k :: 0 <= k < |ms| ==> table[ms[k]].name == name ==> table[ms[k]].quantity.None?
    ensures NamedQuantities(table, ms, name) == []
    decreases |ms|
  {
    if ms != [] {
      var init := ms[..|ms| - 1];
      assert forall k :: 0 <= k < |init| ==> init[k] == ms[k];
      NamedQuantitiesNone(table, init, name);
    }
  }

  // ---------------------------------------------------------------------------
  // Ordering the groups

  predicate Ascending(s: seq<GroupedIngredient>) {
    forall i, j :: 0 <= i < j < |s| ==> s[i].index <= s[j].index
  }

  predicate StrictlyAscending(s: seq<GroupedIngredient>) {
    forall i, j :: 0 <= i < j < |s| ==> s[i].index < s[j].index
  }

  ghost predicate DistinctIndices(vals: set<GroupedIngredient>) {
    forall g, h :: g in vals && h in vals && g.index == h.index ==> g == h
  }

  lemma {:induction false} MinExists(vals: set<GroupedIngredient>)
    requires vals != {}
    ensures exists g :: g in vals && forall h :: h in vals ==> g.index <= h.index
    decreases vals
  {
    var x :| x in vals;
    var rest := vals - {x};
    if rest != {} {
      MinExists(rest);
      var y :| y in rest && forall h :: h in rest ==> y.index <= h.index;
      if x.index < y.index {
        assert forall h :: h in vals ==> x.index <= h.index;
      } else {
        assert forall h :: h in vals ==> y.index <= h.index;
      }
    } else {
      assert vals == {x};
    }
  }

  /** The groups in ascending index order: the least index first, then the rest. */
  ghost function SortedByIndex(vals: set<GroupedIngredient>): seq<GroupedIngredient>
    decreases vals
  {
    if vals == {} then []
    else
      MinExists(vals);
      var g :| g in vals && forall h :: h in vals ==> g.index <= h.index;
      [g] + SortedByIndex(vals - {g})
  }

  lemma {:induction false} SortedByIndexSpec(vals: set<GroupedIngredient>)
    requires DistinctIndices(vals)
    ensures StrictlyAscending(SortedByIndex(vals))
    ensures forall g :: g in SortedByIndex(vals) <==> g in vals
    decreases vals
  {
    if vals != {} {
      var r := SortedByIndex(vals);
      var g := r[0];
      var rest := vals - {g};
      assert r == [g] + SortedByIndex(rest);
      assert g in vals && forall h :: h in vals ==> g.index <= h.index;
      SortedByIndexSpec(rest);
      forall j | 1 <= j < |r| ensures g.index < r[j].index {
        assert r[j] in rest;
      }
    }
  }

  /**
    * Two strictly ascending lists of the same groups are the same list: the sorted order
    * does not depend on the order the groups were collected in.
    */
  lemma {:induction false} SortedUnique(a: seq<GroupedIngredient>, b: seq<GroupedIngredient>)
    requires StrictlyAscending(a) && StrictlyAscending(b)
    requires forall g :: g in a <==> g in b
    ensures a == b
    decreases |a|
  {
    if a != [] {
      assert a[0] in a && a[0] in b;
      SameHead(a, b);
      SameTail(a, b);
      SortedUnique(a[1..], b[1..]);
      assert a == [a[0]] + a[1..] && b == [b[0]] + b[1..];
    } else {
      NoMembers(b);
    }
  }

  /** Two non-empty strictly ascending sequences with the same members start alike. */
  lemma SameHead(a: seq<GroupedIngredient>, b: seq<GroupedIngredient>)
    requires StrictlyAscending(a) && StrictlyAscending(b) && a != [] && b != []
    requires forall g :: g in a <==> g in b
    ensures a[0] == b[0]
  {
    assert a[0] in a && b[0] in b;
    var i :| 0 <= i < |b| && b[i] == a[0];
    var j :| 0 <= j < |a| && a[j] == b[0];
    assert a[0].index <= a[j].index;
    assert b[0].index <= b[i].index;
  }

  /** ... and then have the same members after the head. */
  lemma SameTail(a: seq<GroupedIngredient>, b: seq<GroupedIngredient>)
    requires StrictlyAscending(a) && StrictlyAscending(b) && a != [] && b != [] && a[0] == b[0]
    requires forall g :: g in a <==> g in b
    ensures forall g :: g in a[1..] <==> g in b[1..]
  {
    forall g ensures g in a[1..] ==> g in b[1..] {
      if g in a[1..] {
        var k :| 1 <= k < |a| && a[k] == g;
        assert g != a[0] && g in b;
        var l :| 0 <= l < |b| && b[l] == g;
        assert l != 0 && b[1..][l - 1] == g;
      }
    }
    forall g ensures g in b[1..] ==> g in a[1..] {
      if g in b[1..] {
        var k :| 1 <= k < |b| && b[k] == g;
        assert g != b[0] && g in a;
        var l :| 0 <= l < |a| && a[l] == g;
        assert l != 0 && a[1..][l - 1] == g;
      }
    }
  }

  lemma NoMembers(b: seq<GroupedIngredient>)
    requires forall g :: g !in b
    ensures b == []
  {
    forall g ensures g !in multiset(b) {
      assert g in multiset(b) <==> g in b;
    }
    assert multiset(b) == multiset{};
    assert |b| == |multiset(b)| == 0;
  }


  // ---------------------------------------------------------------------------
  // What one section yields

  /** The mentions of section `k`, all of which resolve in the ingredient table. */
  function SectionMentions(r: Recipe, k: nat): (ms: seq<nat>)
    requires Valid(r) && k < |r.sections|
    ensures InTable(r.ingredients, ms)
  {
    ContentMentionsInTable(r, r.sections[k].content);
    ContentMentions(r.sections[k].content)
  }

  /** The groups of a section with mentions `ms`: one per name, in ascending index order. */
  ghost function SectionGroups(table: seq<IngredientEntry>, conv: Converter, ms: seq<nat>): seq<GroupedIngredient>
    requires InTable(table, ms)
  {
    SortedByIndex(GroupMap(table, conv, ms).Values)
  }

  /** Groups of different names never share an index, since an index has one name. */
  lemma CoherentDistinct(table: seq<IngredientEntry>, m: map<string, GroupedIngredient>)
    requires Coherent(table, m)
    ensures DistinctIndices(m.Values)
  {
    forall g, h | g in m.Values && h in m.Values && g.index == h.index ensures g == h {
      var a :| a in m && m[a] == g;
      var b :| b in m && m[b] == h;
    }
  }

  /** Each listed group is the map's group for its own name. */
  lemma SectionGroupsMembers(table: seq<IngredientEntry>, conv: Converter, ms: seq<nat>)
    requires InTable(table, ms)
    ensures var m, r := GroupMap(table, conv, ms), SectionGroups(table, conv, ms);
      && StrictlyAscending(r)
      && (forall k :: 0 <= k < |r| ==> r[k].ingredient.name in m && r[k] == m[r[k].ingredient.name])
      && (forall n :: n in m ==> m[n] in r)
  {
    var m := GroupMap(table, conv, ms);
    var r := SectionGroups(table, conv, ms);
    GroupMapCoherent(table, conv, ms);
    CoherentDistinct(table, m);
    SortedByIndexSpec(m.Values);
    forall k | 0 <= k < |r| ensures r[k].ingredient.name in m && r[k] == m[r[k].ingredient.name] {
      assert r[k] in m.Values;
      var n :| n in m && m[n] == r[k];
    }
    forall n | n in m ensures m[n] in r {
      assert m[n] in m.Values;
    }
  }

  /**
    * A section's listing has exactly one group per ingredient name its steps mention,
    * in strictly ascending index order, each group carrying the table entry at its index.
    */
  lemma SectionGroupsByName(table: seq<IngredientEntry>, conv: Converter, ms: seq<nat>)
    requires InTable(table, ms)
    ensures var r := SectionGroups(table, conv, ms);
      && StrictlyAscending(r)
      && (forall k :: 0 <= k < |r| ==> r[k].index < |table| && r[k].ingredient == table[r[k].index])
      && (forall k :: 0 <= k < |r| ==> r[k].ingredient.name in Names(table, ms))
      && (forall n :: n in Names(table, ms) ==> exists k :: 0 <= k < |r| && r[k].ingredient.name == n)
      && (forall i, j :: 0 <= i < |r| && 0 <= j < |r| && r[i].ingredient.name == r[j].ingredient.name ==> i == j)
  {
    var m := GroupMap(table, conv, ms);
    var r := SectionGroups(table, conv, ms);
    SectionGroupsMembers(table, conv, ms);
    GroupMapCoherent(table, conv, ms);
    GroupMapKeys(table, conv, ms);
    forall n | n in Names(table, ms) ensures exists k :: 0 <= k < |r| && r[k].ingredient.name == n {
      var k :| 0 <= k < |r| && r[k] == m[n];
    }
  }

  /**
    * Each group of a section's listing keeps its name's first mention, and its quantity
    * is the oracle sum of that name's quantities in mention order.
    */
  lemma SectionGroupsFirstMention(table: seq<IngredientEntry>, conv: Converter, ms: seq<nat>)
    requires InTable(table, ms)
    ensures var r := SectionGroups(table, conv, ms);
      && (forall k :: 0 <= k < |r| ==>
            FirstPos(table, ms, r[k].ingredient.name) < |ms|
            && r[k].index == ms[FirstPos(table, ms, r[k].ingredient.name)])
      && (forall k :: 0 <= k < |r| ==> r[k].quantity == AddAll(conv, NamedQuantities(table, ms, r[k].ingredient.name)))
  {
    var r := SectionGroups(table, conv, ms);
    SectionGroupsMembers(table, conv, ms);
    forall k | 0 <= k < |r|
      ensures FirstPos(table, ms, r[k].ingredient.name) < |ms|
      ensures r[k].index == ms[FirstPos(table, ms, r[k].ingredient.name)]
      ensures r[k].quantity == AddAll(conv, NamedQuantities(table, ms, r[k].ingredient.name))
    {
      GroupMapFirst(table, conv, ms, r[k].ingredient.name);
      GroupMapQuantity(table, conv, ms, r[k].ingredient.name);
    }
  }

  /** The per-section listing of a whole recipe: one entry per section, in section order. */
  ghost function GroupsBySection(r: Recipe, conv: Converter): seq<(Option<string>, seq<GroupedIngredient>)>
    requires Valid(r)
  {
    seq(|r.sections|, k requires 0 <= k < |r.sections| =>
      (r.sections[k].name, SectionGroups(r.ingredients, conv, SectionMentions(r, k))))
  }

  // ---------------------------------------------------------------------------
  // The algorithm

  lemma GroupMapSnoc(table: seq<IngredientEntry>, conv: Converter, ms: seq<nat>, index: nat)
    requires InTable(table, ms) && index < |table|
    ensures InTable(table, ms + [index])
    ensures GroupMap(table, conv, ms + [index]) == Mention(table, conv, GroupMap(table, conv, ms), index)
  {
    assert (ms + [index])[..|ms|] == ms;
  }

  lemma ItemMentionsSnoc(items: seq<Item>, j: nat)
    requires j < |items|
    ensures ItemMentions(items[..j + 1]) == ItemMentions(items[..j]) + ItemMention(items[j])
  {
    assert items[..j + 1][..j] == items[..j];
  }

  lemma ContentMentionsSnoc(cs: seq<Content>, c: nat)
    requires c < |cs|
    ensures ContentMentions(cs[..c + 1]) == ContentMentions(cs[..c]) + ContentMention(cs[c])
  {
    assert cs[..c + 1][..c] == cs[..c];
  }

  /** One ingredient mention: `entry(name).or_insert(...)`, then the quantity's `add`. */
  method AddMention(table: seq<IngredientEntry>, conv: Converter, m: map<string, GroupedIngredient>, index: nat)
    returns (ingredients: map<string, GroupedIngredient>)
    requires index < |table|
    ensures ingredients == Mention(table, conv, m, index)
  {
    ingredients := m;
    var ingredient := table[index];
    var name := ingredient.name;
    if name !in ingredients {
      ingredients := ingredients[name := GroupedIngredient(index, ingredient, [])];
    }
    if ingredient.quantity.Some? {
      var g := ingredients[name];
      ingredients := ingredients[name := g.(quantity := conv.add(g.quantity, ingredient.quantity.value))];
    }
  }

  /** One more item of a step: an ingredient item is one more mention, any other item none. */
  lemma WalkItemStep(recipe: Recipe, conv: Converter, items: seq<Item>, before: seq<nat>, j: nat)
    requires ValidItems(recipe, items) && j < |items|
    requires InTable(recipe.ingredients, before + ItemMentions(items[..j]))
    ensures InTable(recipe.ingredients, before + ItemMentions(items[..j + 1]))
    ensures GroupMap(recipe.ingredients, conv, before + ItemMentions(items[..j + 1])) ==
      match items[j]
      case Ingredient(index) => Mention(recipe.ingredients, conv, GroupMap(recipe.ingredients, conv, before + ItemMentions(items[..j])), index)
      case _ => GroupMap(recipe.ingredients, conv, before + ItemMentions(items[..j]))
  {
    ItemMentionsSnoc(items, j);
    var done := before + ItemMentions(items[..j]);
    assert before + ItemMentions(items[..j]) + ItemMention(items[j]) == before + (ItemMentions(items[..j]) + ItemMention(items[j]));
    assert ValidItem(recipe, items[j]);
    match items[j] {
      case Ingredient(index) =>
        GroupMapSnoc(recipe.ingredients, conv, done, index);
        assert before + ItemMentions(items[..j + 1]) == done + [index];
      case _ =>
        assert before + ItemMentions(items[..j + 1]) == done;
    }
  }

  /** One item of a step: an ingredient item is one more mention, any other item is skipped. */
  method WalkItem(recipe: Recipe, conv: Converter, items: seq<Item>, ghost before: seq<nat>, j: nat,
                  m: map<string, GroupedIngredient>)
    returns (ingredients: map<string, GroupedIngredient>)
    requires ValidItems(recipe, items) && j < |items|
    requires InTable(recipe.ingredients, before + ItemMentions(items[..j]))
    requires m == GroupMap(recipe.ingredients, conv, before + ItemMentions(items[..j]))
    ensures InTable(recipe.ingredients, before + ItemMentions(items[..j + 1]))
    ensures ingredients == GroupMap(recipe.ingredients, conv, before + ItemMentions(items[..j + 1]))
  {
    WalkItemStep(recipe, conv, items, before, j);
    ingredients := m;
    match items[j] {
      case Ingredient(index) =>
        ingredients := AddMention(recipe.ingredients, conv, m, index);
      case _ =>
    }
  }

  /** The items of one step, after the mentions `before` have been walked. */
  method WalkItems(recipe: Recipe, conv: Converter, items: seq<Item>, ghost before: seq<nat>,
                   m: map<string, GroupedIngredient>)
    returns (ingredients: map<string, GroupedIngredient>)
    requires ValidItems(recipe, items) && InTable(recipe.ingredients, before)
    requires m == GroupMap(recipe.ingredients, conv, before)
    ensures InTable(recipe.ingredients, before + ItemMentions(items))
    ensures ingredients == GroupMap(recipe.ingredients, conv, before + ItemMentions(items))
  {
    var table := recipe.ingredients;
    ingredients := m;
    var j := 0;
    assert before + ItemMentions(items[..j]) == before;
    while j < |items|
      invariant 0 <= j <= |items|
      invariant InTable(table, before + ItemMentions(items[..j]))
      invariant ingredients == GroupMap(table, conv, before + ItemMentions(items[..j]))
    {
      ingredients := WalkItem(recipe, conv, items, before, j, ingredients);
      j := j + 1;
    }
    assert items[..j] == items;
  }

  /** The walk over one section's content, filling the name -> group map. */
  method WalkSection(recipe: Recipe, conv: Converter, s: nat) returns (ingredients: map<string, GroupedIngredient>)
    requires Valid(recipe) && s < |recipe.sections|
    ensures ingredients == GroupMap(recipe.ingredients, conv, SectionMentions(recipe, s))
  {
    var table := recipe.ingredients;
    var content := recipe.sections[s].content;
    assert ValidContent(recipe, content);
    ingredients := map[];
    var c := 0;
    while c < |content|
      invariant 0 <= c <= |content|
      invariant InTable(table, ContentMentions(content[..c]))
      invariant ingredients == GroupMap(table, conv, ContentMentions(content[..c]))
    {
      ContentMentionsSnoc(content, c);
      match content[c] {
        case Step(items) =>
          assert ValidItems(recipe, items);
          ingredients := WalkItems(recipe, conv, items, ContentMentions(content[..c]), ingredients);
          assert ContentMentions(content[..c + 1]) == ContentMentions(content[..c]) + ItemMentions(items);
        case Paragraph(_) =>
          assert ContentMentions(content[..c + 1]) == ContentMentions(content[..c]);
      }
      c := c + 1;
    }
    assert content[..c] == content;
  }

  /** Collecting the map's groups in whatever order the map yields them (hash-map iteration). */
  method CollectValues(m: map<string, GroupedIngredient>) returns (vals: seq<GroupedIngredient>)
    requires forall n :: n in m ==> m[n].ingredient.name == n
    ensures forall g :: g in vals <==> g in m.Values
    ensures forall i, j :: 0 <= i < j < |vals| ==> vals[i].ingredient.name != vals[j].ingredient.name
  {
    vals := [];
    var keys := m.Keys;
    while keys != {}
      invariant keys <= m.Keys
      invariant forall g :: g in vals <==> exists n :: n in m.Keys - keys && m[n] == g
      invariant forall i :: 0 <= i < |vals| ==> vals[i].ingredient.name !in keys
      invariant forall i, j :: 0 <= i < j < |vals| ==> vals[i].ingredient.name != vals[j].ingredient.name
      decreases keys
    {
      var n :| n in keys;
      vals := vals + [m[n]];
      keys := keys - {n};
    }
  }

  predicate DistinctKeys(xs: seq<GroupedIngredient>) {
    forall a, b :: 0 <= a < b < |xs| ==> xs[a].index != xs[b].index
  }

  /** Where each element of `ys[..p] + [x] + ys[p..]` comes from. */
  lemma InsertIndex(ys: seq<GroupedIngredient>, p: nat, x: GroupedIngredient)
    requires p <= |ys|
    ensures var zs := ys[..p] + [x] + ys[p..];
      |zs| == |ys| + 1 && zs[p] == x
      && (forall a :: 0 <= a < p ==> zs[a] == ys[a])
      && (forall a :: p < a < |zs| ==> zs[a] == ys[a - 1])
  {
  }

  /** Inserting `x` at `p` keeps the order when everything before is at most `x` and the rest above it. */
  lemma InsertAscending(ys: seq<GroupedIngredient>, p: nat, x: GroupedIngredient)
    requires p <= |ys| && Ascending(ys)
    requires forall q :: 0 <= q < p ==> ys[q].index <= x.index
    requires p < |ys| ==> x.index < ys[p].index
    ensures Ascending(ys[..p] + [x] + ys[p..])
  {
    var zs := ys[..p] + [x] + ys[p..];
    InsertIndex(ys, p, x);
    forall a, b | 0 <= a < b < |zs|
      ensures zs[a].index <= zs[b].index
    {
      if a == p {
        assert zs[b] == ys[b - 1];
      }
    }
  }

  /** The same for the strict order, when everything before is below `x`. */
  lemma InsertStrictlyAscending(ys: seq<GroupedIngredient>, p: nat, x: GroupedIngredient)
    requires p <= |ys| && StrictlyAscending(ys)
    requires forall q :: 0 <= q < p ==> ys[q].index < x.index
    requires p < |ys| ==> x.index < ys[p].index
    ensures StrictlyAscending(ys[..p] + [x] + ys[p..])
  {
    var zs := ys[..p] + [x] + ys[p..];
    InsertIndex(ys, p, x);
    forall a, b | 0 <= a < b < |zs|
      ensures zs[a].index < zs[b].index
    {
      if a == p {
        assert zs[b] == ys[b - 1];
      }
    }
  }

  /** Inserting adds exactly `x` to the elements. */
  lemma InsertMultiset(ys: seq<GroupedIngredient>, p: nat, x: GroupedIngredient)
    requires p <= |ys|
    ensures multiset(ys[..p] + [x] + ys[p..]) == multiset(ys) + multiset{x}
  {
    assert ys == ys[..p] + ys[p..];
  }

  /** A group already placed came from an earlier position, so its index differs from `xs[i]`'s. */
  lemma PlacedDiffers(xs: seq<GroupedIngredient>, i: nat, ys: seq<GroupedIngredient>)
    requires DistinctKeys(xs) && i < |xs| && multiset(ys) == multiset(xs[..i])
    ensures forall q :: 0 <= q < |ys| ==> ys[q].index != xs[i].index
  {
    forall q | 0 <= q < |ys| ensures ys[q].index != xs[i].index {
      assert ys[q] in multiset(xs[..i]);
      var a :| 0 <= a < i && xs[..i][a] == ys[q];
    }
  }

  /** The first position whose index exceeds `x`'s: inserting there keeps a stable order. */
  method InsertionPoint(ys: seq<GroupedIngredient>, x: GroupedIngredient) returns (p: nat)
    requires Ascending(ys)
    ensures p <= |ys|
    ensures forall q :: 0 <= q < p ==> ys[q].index <= x.index
    ensures p < |ys| ==> x.index < ys[p].index
  {
    p := 0;
    while p < |ys| && ys[p].index <= x.index
      invariant 0 <= p <= |ys|
      invariant forall q :: 0 <= q < p ==> ys[q].index <= x.index
    {
      p := p + 1;
    }
  }

  /** Inserts `x` after every group whose index is not larger, so equal indices keep their order. */
  method Insert(ys: seq<GroupedIngredient>, x: GroupedIngredient) returns (zs: seq<GroupedIngredient>)
    requires Ascending(ys)
    ensures Ascending(zs)
    ensures multiset(zs) == multiset(ys) + multiset{x}
    ensures StrictlyAscending(ys) && (forall q :: 0 <= q < |ys| ==> ys[q].index != x.index) ==> StrictlyAscending(zs)
  {
    var p := InsertionPoint(ys, x);
    if StrictlyAscending(ys) && (forall q :: 0 <= q < |ys| ==> ys[q].index != x.index) {
      InsertStrictlyAscending(ys, p, x);
    }
    InsertAscending(ys, p, x);
    InsertMultiset(ys, p, x);
    zs := ys[..p] + [x] + ys[p..];
  }

  /** `sort_by_key(|gi| gi.index)`: an insertion sort, stable, into ascending index order. */
  method SortByIndex(xs: seq<GroupedIngredient>) returns (ys: seq<GroupedIngredient>)
    ensures Ascending(ys)
    ensures multiset(ys) == multiset(xs)
    ensures DistinctKeys(xs) ==> StrictlyAscending(ys)
  {
    ghost var distinct := DistinctKeys(xs);
    ys := [];
    var i := 0;
    while i < |xs|
      invariant 0 <= i <= |xs|
      invariant Ascending(ys)
      invariant multiset(ys) == multiset(xs[..i])
      invariant distinct ==> StrictlyAscending(ys)
    {
      var x := xs[i];
      if distinct {
        PlacedDiffers(xs, i, ys);
      }
      ys := Insert(ys, x);
      assert xs[..i + 1] == xs[..i] + [x];
      i := i + 1;
    }
    assert xs[..i] == xs;
  }

  /** One section's listing: walk its steps, collect the map's groups, sort them by index. */
  method GroupSection(recipe: Recipe, conv: Converter, s: nat) returns (output: seq<GroupedIngredient>)
    requires Valid(recipe) && s < |recipe.sections|
    ensures output == SectionGroups(recipe.ingredients, conv, SectionMentions(recipe, s))
  {
    ghost var table, ms := recipe.ingredients, SectionMentions(recipe, s);
    var ingredients := WalkSection(recipe, conv, s);
    GroupMapCoherent(table, conv, ms);
    var collected := CollectValues(ingredients);
    assert DistinctKeys(collected) by {
      forall a, b | 0 <= a < b < |collected| ensures collected[a].index != collected[b].index {
        assert collected[a] in ingredients.Values && collected[b] in ingredients.Values;
      }
    }
    output := SortByIndex(collected);
    CoherentDistinct(table, ingredients);
    SortedByIndexSpec(ingredients.Values);
    forall g ensures g in output <==> g in SortedByIndex(ingredients.Values) {
      assert g in output <==> g in multiset(output);
      assert g in collected <==> g in multiset(collected);
    }
    SortedUnique(output, SortedByIndex(ingredients.Values));
  }

  /** `get_ingredients_by_section`: one listing per section, in section order, each built from scratch. */
  method IngredientsBySection(recipe: Recipe, conv: Converter)
    returns (sections: seq<(Option<string>, seq<GroupedIngredient>)>)
    requires Valid(recipe)
    ensures |sections| == |recipe.sections|
    ensures forall k :: 0 <= k < |sections| ==> sections[k].0 == recipe.sections[k].name
    ensures forall k :: 0 <= k < |sections| ==>
      sections[k].1 == SectionGroups(recipe.ingredients, conv, SectionMentions(recipe, k))
    ensures sections == GroupsBySection(recipe, conv)
  {
    sections := [];
    var s := 0;
    while s < |recipe.sections|
      invariant 0 <= s <= |recipe.sections| && |sections| == s
      invariant forall k :: 0 <= k < s ==> sections[k] == GroupsBySection(recipe, conv)[k]
    {
      var output := GroupSection(recipe, conv, s);
      sections := sections + [(recipe.sections[s].name, output)];
      s := s + 1;
    }
  }
}
