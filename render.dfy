/**
  * The recipe renderer: the ingredient listing, the instructions, the metadata command,
  * and the whole document of one recipe, built with a `LatexBuilder`.
  */
module Render {
  import opened Wrappers
  import opened Strings
  import opened Latex
  import opened Cooklang
  import opened Format
  import opened Aggregate

  // ---------------------------------------------------------------------------
  // The ingredient listing

  function FormatAll(qs: GroupedQuantity): (r: seq<string>)
    ensures |r| == |qs| && forall i :: 0 <= i < |qs| ==> r[i] == FormatQuantity(qs[i])
  {
    if qs == [] then [] else [FormatQuantity(qs[0])] + FormatAll(qs[1..])
  }

  /** The formatted quantities joined by ", " (the `reduce`); `None` when there are none. */
  function JoinedQuantities(qs: GroupedQuantity): Option<string> {
    if qs == [] then None else Some(Join(FormatAll(qs), ", "))
  }

  /** The words of an ingredient line: the joined quantities if any, then the name. */
  function IngredientParts(g: GroupedIngredient): seq<string> {
    match JoinedQuantities(g.quantity)
    case Some(q) => [q, g.ingredient.name]
    case None => [g.ingredient.name]
  }

  /** The arguments of an ingredient line: the escaped text, and the marker when optional. */
  function IngredientArgs(g: GroupedIngredient): seq<Arg> {
    [Required(SanitizeLatex(Join(IngredientParts(g), " ")))]
      + (if g.ingredient.isOptional then [Optional("\\BooleanTrue")] else [])
  }

  function IngredientLine(g: GroupedIngredient): string {
    CommandLine("ingredient", IngredientArgs(g))
  }

  /** One line per group whose ingredient is to be listed, in order. */
  function ListedLines(gs: seq<GroupedIngredient>): seq<string> {
    if gs == [] then []
    else
      var g := gs[|gs| - 1];
      ListedLines(gs[..|gs| - 1]) + (if g.ingredient.shouldBeListed then [IngredientLine(g)] else [])
  }

  function IngredientHeading(name: Option<string>): seq<string> {
    match name
    case Some(n) => [CommandLine("ingredientsection", [Required(SanitizeLatex(n))])]
    case None => []
  }

  /** The listing of the first `n` sections' groups. */
  function IngredientLinesUpTo(groups: seq<(Option<string>, seq<GroupedIngredient>)>, n: nat): seq<string>
    requires n <= |groups|
  {
    if n == 0 then []
    else IngredientLinesUpTo(groups, n - 1) + IngredientHeading(groups[n - 1].0) + ListedLines(groups[n - 1].1)
  }

  function IngredientLines(groups: seq<(Option<string>, seq<GroupedIngredient>)>): seq<string> {
    IngredientLinesUpTo(groups, |groups|)
  }

  function CountListed(gs: seq<GroupedIngredient>): nat {
    if gs == [] then 0 else CountListed(gs[..|gs| - 1]) + (if gs[|gs| - 1].ingredient.shouldBeListed then 1 else 0)
  }

  /** A section's listing has one line per listed group and nothing for the others. */
  lemma {:induction false} ListedLinesCount(gs: seq<GroupedIngredient>)
    ensures |ListedLines(gs)| == CountListed(gs)
    ensures (forall k :: 0 <= k < |gs| ==> !gs[k].ingredient.shouldBeListed) ==> ListedLines(gs) == []
    decreases |gs|
  {
    if gs != [] {
      ListedLinesCount(gs[..|gs| - 1]);
    }
  }

  /** A group without quantities is listed by its name alone. */
  lemma IngredientTextWithoutQuantity(g: GroupedIngredient)
    requires g.quantity == []
    ensures IngredientArgs(g)[0] == Required(SanitizeLatex(g.ingredient.name))
  {
  }

  /** A group with quantities is listed as the quantities joined by ", ", a space, and the name. */
  lemma IngredientTextWithQuantities(g: GroupedIngredient)
    requires g.quantity != []
    ensures var text := Join(IngredientParts(g), " ");
      text == Join(FormatAll(g.quantity), ", ") + " " + g.ingredient.name
      && FormatQuantity(g.quantity[0]) <= text
  {
    var fs := FormatAll(g.quantity);
    JoinPrefix(fs, ", ");
    assert IngredientParts(g)[1..] == [g.ingredient.name];
  }

  /** The first piece of a join starts it. */
  lemma {:induction false} JoinPrefix(lines: seq<string>, sep: string)
    requires |lines| > 0
    ensures lines[0] <= Join(lines, sep)
  {
  }

  /** The optional marker ends the line exactly when the ingredient is optional. */
  lemma OptionalMarker(g: GroupedIngredient)
    ensures var line := IngredientLine(g);
      |line| > 0 && (line[|line| - 1] == ']' <==> g.ingredient.isOptional)
  {
    var args := IngredientArgs(g);
    RenderArgsLast(args);
    var rendered := RenderArgs(args);
    var line := IngredientLine(g);
    assert line == "\\" + "ingredient" + rendered;
    assert line[|line| - 1] == rendered[|rendered| - 1];
  }

  /** One group of `ingredient_list`'s inner loop: a line when the ingredient is to be listed. */
  method AddIngredient(latex: LatexBuilder, g: GroupedIngredient)
    modifies latex
    ensures latex.content == old(latex.content)
      + (if g.ingredient.shouldBeListed then [IngredientLine(g)] else [])
  {
    if g.ingredient.shouldBeListed {
      var parts := [];
      var quantities := JoinedQuantities(g.quantity);
      if quantities.Some? {
        parts := parts + [quantities.value];
      }
      parts := parts + [g.ingredient.name];
      var args := [Required(SanitizeLatex(Join(parts, " ")))];
      if g.ingredient.isOptional {
        args := args + [Optional("\\BooleanTrue")];
      }
      assert args == IngredientArgs(g);
      latex.AddCommand("ingredient", args);
    }
  }

  /** One section of `ingredient_list`: its heading when named, then its listed groups. */
  method AddIngredientSection(latex: LatexBuilder, name: Option<string>, gs: seq<GroupedIngredient>)
    modifies latex
    ensures latex.content == old(latex.content) + IngredientHeading(name) + ListedLines(gs)
  {
    if name.Some? {
      latex.AddSimpleCommand("ingredientsection", SanitizeLatex(name.value));
    }
    ghost var heading := latex.content;
    var k := 0;
    while k < |gs|
      invariant 0 <= k <= |gs|
      invariant latex.content == heading + ListedLines(gs[..k])
    {
      assert gs[..k + 1][..k] == gs[..k];
      AddIngredient(latex, gs[k]);
      k := k + 1;
    }
    assert gs[..k] == gs;
  }

  lemma IngredientLinesNext(groups: seq<(Option<string>, seq<GroupedIngredient>)>, s: nat)
    requires s < |groups|
    ensures IngredientLinesUpTo(groups, s + 1)
      == IngredientLinesUpTo(groups, s) + IngredientHeading(groups[s].0) + ListedLines(groups[s].1)
  {
  }

  /** `ingredient_list`: for each section, its heading when named, then one line per listed group. */
  method IngredientList(groups: seq<(Option<string>, seq<GroupedIngredient>)>) returns (latex: LatexBuilder)
    ensures fresh(latex)
    ensures latex.content == IngredientLines(groups)
  {
    latex := new LatexBuilder();
    var s := 0;
    while s < |groups|
      invariant 0 <= s <= |groups|
      invariant fresh(latex)
      invariant latex.content == IngredientLinesUpTo(groups, s)
    {
      AddIngredientSection(latex, groups[s].0, groups[s].1);
      IngredientLinesNext(groups, s);
      s := s + 1;
    }
  }

  // ---------------------------------------------------------------------------
  // The instructions

  /**
    * How one step item reads in the instruction text. An index outside its table, or a
    * timer with neither quantity nor name, reads as nothing where the source would panic
    * (`Valid` excludes both), so that the text is defined for every recipe.
    */
  function ItemText(r: Recipe, item: Item): string {
    if !ValidItem(r, item) then ""
    else match item
      case Text(value) => value
      case Ingredient(i) => r.ingredients[i].displayName
      case Cookware(i) => r.cookware[i].name
      case Timer(i) => FormatTimer(r.timers[i].quantity, r.timers[i].name)
      case InlineQuantity(i) => FormatQuantity(r.inlineQuantities[i])
  }

  /** `step_text`: the items' texts concatenated in order. */
  function StepText(r: Recipe, items: seq<Item>): string {
    if items == [] then "" else ItemText(r, items[0]) + StepText(r, items[1..])
  }

  /** The text of a step splits wherever its items do. */
  lemma {:induction false} StepTextAppend(r: Recipe, a: seq<Item>, b: seq<Item>)
    ensures StepText(r, a + b) == StepText(r, a) + StepText(r, b)
    decreases |a|
  {
    if a == [] {
      assert a + b == b;
    } else {
      assert (a + b)[1..] == a[1..] + b;
      StepTextAppend(r, a[1..], b);
    }
  }

  /** A step of plain text items reads as their values, in order. */
  lemma {:induction false} StepTextOfTexts(r: Recipe, values: seq<string>)
    ensures var items := seq(|values|, i requires 0 <= i < |values| => Text(values[i]));
      StepText(r, items) == Join(values, "")
    decreases |values|
  {
    var items := seq(|values|, i requires 0 <= i < |values| => Text(values[i]));
    if |values| > 1 {
      StepTextOfTexts(r, values[1..]);
      assert items[1..] == seq(|values| - 1, i requires 0 <= i < |values| - 1 => Text(values[1..][i]));
    } else if |values| == 1 {
      assert items[1..] == [];
    }
  }

  function ContentText(r: Recipe, c: Content): string {
    match c
    case Step(items) => StepText(r, items)
    case Paragraph(text) => text
  }

  /** One `\step` line per content entry, in order. */
  function ContentLines(r: Recipe, cs: seq<Content>): seq<string> {
    if cs == [] then []
    else
      ContentLines(r, cs[..|cs| - 1])
        + [CommandLine("step", [Required(SanitizeLatex(ContentText(r, cs[|cs| - 1])))])]
  }

  function InstructionHeading(r: Recipe, k: nat): seq<string>
    requires k < |r.sections|
  {
    var name := r.sections[k].name;
    if |r.sections| > 1 && name.Some?
    then [CommandLine("instructionsection", [Required(SanitizeLatex(name.value))])] else []
  }

  /** The lines one section contributes to the instructions. */
  function SectionInstructions(r: Recipe, k: nat): seq<string>
    requires k < |r.sections|
  {
    InstructionHeading(r, k) + ContentLines(r, r.sections[k].content)
  }

  function InstructionLinesUpTo(r: Recipe, n: nat): seq<string>
    requires n <= |r.sections|
  {
    if n == 0 then [] else InstructionLinesUpTo(r, n - 1) + SectionInstructions(r, n - 1)
  }

  function InstructionLines(r: Recipe): seq<string> {
    InstructionLinesUpTo(r, |r.sections|)
  }

  lemma {:induction false} ContentLinesCount(r: Recipe, cs: seq<Content>)
    ensures |ContentLines(r, cs)| == |cs|
    decreases |cs|
  {
    if cs != [] {
      ContentLinesCount(r, cs[..|cs| - 1]);
    }
  }

  /**
    * Each section adds one `\step` line per content entry to the instructions, plus one
    * heading exactly when the recipe has several sections and this one is named.
    */
  lemma SectionLinesCount(r: Recipe, n: nat)
    requires 0 < n <= |r.sections|
    ensures |InstructionLinesUpTo(r, n)| == |InstructionLinesUpTo(r, n - 1)|
      + (if |r.sections| > 1 && r.sections[n - 1].name.Some? then 1 else 0) + |r.sections[n - 1].content|
  {
    var cs := r.sections[n - 1].content;
    ContentLinesCount(r, cs);
  }

  /** One content entry of `instruction_list`'s inner loop: a `\step` with its escaped text. */
  method AddStep(latex: LatexBuilder, recipe: Recipe, c: Content)
    modifies latex
    ensures latex.content == old(latex.content)
      + [CommandLine("step", [Required(SanitizeLatex(ContentText(recipe, c)))])]
  {
    var instruction := match c
      case Step(items) => StepText(recipe, items)
      case Paragraph(text) => text;
    latex.AddSimpleCommand("step", SanitizeLatex(instruction));
  }

  /** The content entries of one section, in order. */
  method AddSteps(latex: LatexBuilder, recipe: Recipe, cs: seq<Content>)
    modifies latex
    ensures latex.content == old(latex.content) + ContentLines(recipe, cs)
  {
    var c := 0;
    while c < |cs|
      invariant 0 <= c <= |cs|
      invariant latex.content == old(latex.content) + ContentLines(recipe, cs[..c])
    {
      assert cs[..c + 1][..c] == cs[..c];
      AddStep(latex, recipe, cs[c]);
      c := c + 1;
    }
    assert cs[..c] == cs;
  }

  /** The section heading of `instruction_list`, emitted only when the recipe has several sections and this one is named. */
  method AddInstructionHeading(latex: LatexBuilder, recipe: Recipe, k: nat)
    requires k < |recipe.sections|
    modifies latex
    ensures latex.content == old(latex.content) + InstructionHeading(recipe, k)
  {
    var section := recipe.sections[k];
    if |recipe.sections| > 1 && section.name.Some? {
      latex.AddSimpleCommand("instructionsection", SanitizeLatex(section.name.value));
    }
  }

  /** One section of `instruction_list`: its heading if any, then a `\step` per content entry. */
  method AddInstructionSection(latex: LatexBuilder, recipe: Recipe, k: nat)
    requires k < |recipe.sections|
    modifies latex
    ensures latex.content == old(latex.content) + SectionInstructions(recipe, k)
  {
    ghost var start := latex.content;
    ghost var heading, steps := InstructionHeading(recipe, k), ContentLines(recipe, recipe.sections[k].content);
    AddInstructionHeading(latex, recipe, k);
    AddSteps(latex, recipe, recipe.sections[k].content);
    assert start + heading + steps == start + (heading + steps);
  }

  lemma InstructionLinesNext(r: Recipe, s: nat)
    requires s < |r.sections|
    ensures InstructionLinesUpTo(r, s + 1) == InstructionLinesUpTo(r, s) + SectionInstructions(r, s)
  {
  }

  /** The loop of `instruction_list`: the lines of every section, in order. */
  method AddInstructions(latex: LatexBuilder, recipe: Recipe)
    modifies latex
    ensures latex.content == old(latex.content) + InstructionLines(recipe)
  {
    ghost var start := latex.content;
    var s := 0;
    while s < |recipe.sections|
      invariant 0 <= s <= |recipe.sections|
      invariant latex.content == start + InstructionLinesUpTo(recipe, s)
    {
      ghost var done, next := InstructionLinesUpTo(recipe, s), SectionInstructions(recipe, s);
      AddInstructionSection(latex, recipe, s);
      assert start + done + next == start + (done + next);
      InstructionLinesNext(recipe, s);
      s := s + 1;
    }
  }

  /** `instruction_list`: per section, a heading when there are several sections and it is named, then its steps. */
  method InstructionList(recipe: Recipe) returns (latex: LatexBuilder)
    ensures fresh(latex)
    ensures latex.content == InstructionLines(recipe)
  {
    latex := new LatexBuilder();
    AddInstructions(latex, recipe);
    assert [] + InstructionLines(recipe) == InstructionLines(recipe);
  }

  // ---------------------------------------------------------------------------
  // The metadata command and the document

  /** A time argument: empty when absent, otherwise text that reads back as the minutes. */
  function TimeText(t: Option<nat>): (s: string)
    ensures t.None? <==> s == ""
    ensures t.Some? ==> ParseTime(s) == t
  {
    match t
    case Some(m) => ParseFormatTime(m); assert ParseTime("") == None; FormatTime(m)
    case None => ""
  }

  /** The difficulty every recipe is given. */
  const Difficulty: string := "Moderate"

  /**
    * `recipe_meta`: exactly four required arguments, servings, prep time, cook time and the
    * fixed difficulty; a missing time is an empty argument.
    */
  function RecipeMeta(meta: Metadata): (args: seq<Arg>)
    requires meta.servings.Some?
    ensures |args| == 4
    ensures !args[0].optional && !args[1].optional && !args[2].optional && !args[3].optional
    ensures args[0].value == meta.servings.value && args[3] == Required(Difficulty)
    ensures meta.prepTime.None? <==> args[1].value == ""
    ensures meta.cookTime.None? <==> args[2].value == ""
  {
    var prep := TimeText(meta.prepTime);
    var cook := TimeText(meta.cookTime);
    [Required(meta.servings.value), Required(prep), Required(cook), Required(Difficulty)]
  }

  /** A present time in the metadata command reads back as the recipe's minutes. */
  lemma RecipeMetaTimes(meta: Metadata)
    requires meta.servings.Some?
    ensures meta.prepTime.Some? ==> ParseTime(RecipeMeta(meta)[1].value) == meta.prepTime
    ensures meta.cookTime.Some? ==> ParseTime(RecipeMeta(meta)[2].value) == meta.cookTime
  {
    var args := RecipeMeta(meta);
    assert args[1].value == TimeText(meta.prepTime);
    assert args[2].value == TimeText(meta.cookTime);
  }

  // ---------------------------------------------------------------------------
  // The document of one recipe

  /** `build_recipe_content`: the ingredient listing and the instructions, each in its own environment. */
  ghost function RecipeContentLines(r: Recipe, conv: Converter): seq<string>
    requires Valid(r)
  {
    [BeginLine("ingredients")] + IngredientLines(GroupsBySection(r, conv)) + [EndLine("ingredients")]
      + [BeginLine("instructions")] + InstructionLines(r) + [EndLine("instructions")]
  }

  /** The three commands that open a recipe: its title, its description and its metadata. */
  function HeaderLines(meta: Metadata): seq<string>
    requires meta.title.Some? && meta.description.Some? && meta.servings.Some?
  {
    [CommandLine("recipeheader", [Required(meta.title.value)]),
     CommandLine("recipedesc", [Required(meta.description.value)]),
     CommandLine("recipemeta", RecipeMeta(meta))]
  }

  /** The lines of the document `create_recipe` builds for a recipe with a title, a description and servings. */
  ghost function RecipeLines(r: Recipe, conv: Converter): seq<string>
    requires Valid(r)
    requires r.metadata.title.Some? && r.metadata.description.Some? && r.metadata.servings.Some?
  {
    HeaderLines(r.metadata) + [BeginLine("recipe")] + RecipeContentLines(r, conv) + [EndLine("recipe")]
  }

  method BuildRecipeContent(recipe: Recipe, conv: Converter) returns (content: LatexBuilder)
    requires Valid(recipe)
    ensures fresh(content)
    ensures content.content == RecipeContentLines(recipe, conv)
  {
    content := new LatexBuilder();
    var grouped := IngredientsBySection(recipe, conv);
    var ingredients := IngredientList(grouped);
    var instructions := InstructionList(recipe);
    ghost var ingredientLines := IngredientLines(GroupsBySection(recipe, conv));
    ghost var instructionLines := InstructionLines(recipe);
    assert ingredients.content == ingredientLines;
    assert instructions.content == instructionLines;
    content.AddEnv("ingredients", ingredients);
    assert [] + [BeginLine("ingredients")] == [BeginLine("ingredients")];
    assert content.content == [BeginLine("ingredients")] + ingredientLines + [EndLine("ingredients")];
    content.AddEnv("instructions", instructions);
  }

  /** The first three commands of `create_recipe`: title, description and metadata. */
  method AddHeader(latex: LatexBuilder, meta: Metadata)
    requires meta.title.Some? && meta.description.Some? && meta.servings.Some?
    modifies latex
    ensures latex.content == old(latex.content) + HeaderLines(meta)
  {
    var args := RecipeMeta(meta);
    latex.AddSimpleCommand("recipeheader", meta.title.value);
    latex.AddSimpleCommand("recipedesc", meta.description.value);
    latex.AddCommand("recipemeta", args);
  }

  /**
    * `create_recipe`: a recipe without a title, or with a title but no description, is an
    * error with the source's message; otherwise the document is the header, description and
    * metadata commands followed by the `recipe` environment around the content.
    */
  method CreateRecipe(recipe: Recipe, conv: Converter) returns (r: Result<string, string>)
    requires Valid(recipe)
    requires recipe.metadata.title.Some? && recipe.metadata.description.Some? ==> recipe.metadata.servings.Some?
    ensures recipe.metadata.title.None? ==> r == Err("Recipe must have a title")
    ensures recipe.metadata.title.Some? && recipe.metadata.description.None? ==>
      r == Err("Recipe must have a description")
    ensures recipe.metadata.title.Some? && recipe.metadata.description.Some? ==>
      r == Ok(Join(RecipeLines(recipe, conv), "\n"))
  {
    if recipe.metadata.title.None? {
      return Err("Recipe must have a title");
    }
    var title := recipe.metadata.title.value;
    if recipe.metadata.description.None? {
      return Err("Recipe must have a description");
    }
    var description := recipe.metadata.description.value;
    var latex := new LatexBuilder();
    var content := BuildRecipeContent(recipe, conv);
    AddHeader(latex, recipe.metadata);
    assert [] + HeaderLines(recipe.metadata) == HeaderLines(recipe.metadata);
    latex.AddEnv("recipe", content);
    assert latex.content == RecipeLines(recipe, conv);
    r := Ok(latex.Build());
  }

  lemma CommandNeutralLine(command: string, args: seq<Arg>)
    requires |command| > 0 && command[0] != 'b' && command[0] != 'e'
    ensures AllNeutral([CommandLine(command, args)])
  {
    CommandNeutral(command, args);
    assert [CommandLine(command, args)][1..] == [];
  }

  lemma {:induction false} ListedLinesNeutral(gs: seq<GroupedIngredient>)
    ensures AllNeutral(ListedLines(gs))
    decreases |gs|
  {
    if gs != [] {
      var g := gs[|gs| - 1];
      ListedLinesNeutral(gs[..|gs| - 1]);
      if g.ingredient.shouldBeListed {
        CommandNeutralLine("ingredient", IngredientArgs(g));
        NeutralConcat(ListedLines(gs[..|gs| - 1]), [IngredientLine(g)]);
      } else {
        assert ListedLines(gs) == ListedLines(gs[..|gs| - 1]);
      }
    }
  }

  lemma HeadingNeutral(name: Option<string>)
    ensures AllNeutral(IngredientHeading(name))
  {
    if name.Some? {
      CommandNeutralLine("ingredientsection", [Required(SanitizeLatex(name.value))]);
    }
  }

  lemma {:induction false} IngredientLinesNeutral(groups: seq<(Option<string>, seq<GroupedIngredient>)>, n: nat)
    requires n <= |groups|
    ensures AllNeutral(IngredientLinesUpTo(groups, n))
    decreases n
  {
    if n > 0 {
      IngredientLinesNeutral(groups, n - 1);
      HeadingNeutral(groups[n - 1].0);
      ListedLinesNeutral(groups[n - 1].1);
      NeutralConcat(IngredientLinesUpTo(groups, n - 1), IngredientHeading(groups[n - 1].0));
      NeutralConcat(IngredientLinesUpTo(groups, n - 1) + IngredientHeading(groups[n - 1].0), ListedLines(groups[n - 1].1));
    }
  }

  lemma {:induction false} ContentLinesNeutral(r: Recipe, cs: seq<Content>)
    ensures AllNeutral(ContentLines(r, cs))
    decreases |cs|
  {
    if cs != [] {
      ContentLinesNeutral(r, cs[..|cs| - 1]);
      var step := [CommandLine("step", [Required(SanitizeLatex(ContentText(r, cs[|cs| - 1])))])];
      CommandNeutralLine("step", [Required(SanitizeLatex(ContentText(r, cs[|cs| - 1])))]);
      NeutralConcat(ContentLines(r, cs[..|cs| - 1]), step);
    }
  }

  lemma InstructionHeadingNeutral(r: Recipe, k: nat)
    requires k < |r.sections|
    ensures AllNeutral(InstructionHeading(r, k))
  {
    var name := r.sections[k].name;
    if |r.sections| > 1 && name.Some? {
      CommandNeutralLine("instructionsection", [Required(SanitizeLatex(name.value))]);
    }
  }

  /** The instruction lines of the first `n` sections neither open nor close an environment. */
  predicate InstructionsNeutral(r: Recipe, n: nat)
    requires n <= |r.sections|
  {
    AllNeutral(InstructionLinesUpTo(r, n))
  }

  lemma {:induction false} InstructionLinesNeutral(r: Recipe, n: nat)
    requires n <= |r.sections|
    ensures InstructionsNeutral(r, n)
    decreases n
  {
    if n == 0 {
      NoInstructionsNeutral(r);
    } else {
      var m := n - 1;
      InstructionLinesNeutral(r, m);
      InstructionLinesStepNeutral(r, m);
      assert m + 1 == n;
    }
  }

  lemma NoInstructionsNeutral(r: Recipe)
    ensures InstructionsNeutral(r, 0)
  {
    assert InstructionLinesUpTo(r, 0) == [];
  }

  lemma InstructionLinesStepNeutral(r: Recipe, m: nat)
    requires m < |r.sections| && InstructionsNeutral(r, m)
    ensures InstructionsNeutral(r, m + 1)
  {
    SectionInstructionsNeutral(r, m);
    NeutralConcat(InstructionLinesUpTo(r, m), SectionInstructions(r, m));
  }

  lemma SectionInstructionsNeutral(r: Recipe, k: nat)
    requires k < |r.sections|
    ensures AllNeutral(SectionInstructions(r, k))
  {
    ContentLinesNeutral(r, r.sections[k].content);
    InstructionHeadingNeutral(r, k);
    NeutralConcat(InstructionHeading(r, k), ContentLines(r, r.sections[k].content));
  }

  lemma ThreeNeutral(l0: string, l1: string, l2: string)
    requires NeutralLine(l0) && NeutralLine(l1) && NeutralLine(l2)
    ensures AllNeutral([l0, l1, l2])
  {
    assert [l2][1..] == [];
    assert AllNeutral([l2]);
    assert [l1, l2][1..] == [l2];
    assert AllNeutral([l1, l2]);
    assert [l0, l1, l2][1..] == [l1, l2];
  }

  lemma HeaderNeutral(meta: Metadata)
    requires meta.title.Some? && meta.description.Some? && meta.servings.Some?
    ensures AllNeutral(HeaderLines(meta))
  {
    var l0 := CommandLine("recipeheader", [Required(meta.title.value)]);
    var l1 := CommandLine("recipedesc", [Required(meta.description.value)]);
    var l2 := CommandLine("recipemeta", RecipeMeta(meta));
    CommandNeutral("recipeheader", [Required(meta.title.value)]);
    CommandNeutral("recipedesc", [Required(meta.description.value)]);
    CommandNeutral("recipemeta", RecipeMeta(meta));
    ThreeNeutral(l0, l1, l2);
  }

  /** Every environment the content opens is closed, innermost first. */
  lemma RecipeContentWellNested(r: Recipe, conv: Converter)
    requires Valid(r)
    ensures WellNested(RecipeContentLines(r, conv))
  {
    var ingredients := IngredientLines(GroupsBySection(r, conv));
    IngredientLinesNeutral(GroupsBySection(r, conv), |GroupsBySection(r, conv)|);
    NeutralLines(ingredients, []);
    EnvWellNested([], "ingredients", ingredients);
    assert [] + [BeginLine("ingredients")] + ingredients + [EndLine("ingredients")]
      == [BeginLine("ingredients")] + ingredients + [EndLine("ingredients")];
    var instructions := InstructionLines(r);
    InstructionLinesNeutral(r, |r.sections|);
    NeutralLines(instructions, []);
    EnvWellNested([BeginLine("ingredients")] + ingredients + [EndLine("ingredients")], "instructions", instructions);
  }

  /** The document of a recipe is well nested: `recipe` around `ingredients` and then `instructions`. */
  lemma RecipeWellNested(r: Recipe, conv: Converter)
    requires Valid(r)
    requires r.metadata.title.Some? && r.metadata.description.Some? && r.metadata.servings.Some?
    ensures WellNested(RecipeLines(r, conv))
  {
    var meta := r.metadata;
    var header := HeaderLines(meta);
    HeaderNeutral(meta);
    NeutralLines(header, []);
    RecipeContentWellNested(r, conv);
    EnvWellNested(header, "recipe", RecipeContentLines(r, conv));
  }

  /** The document of a recipe starts with its header command carrying the title. */
  lemma RecipeStartsWithHeader(r: Recipe, conv: Converter)
    requires Valid(r)
    requires r.metadata.title.Some? && r.metadata.description.Some? && r.metadata.servings.Some?
    ensures CommandLine("recipeheader", [Required(r.metadata.title.value)]) <= Join(RecipeLines(r, conv), "\n")
  {
    var lines := RecipeLines(r, conv);
    var title := r.metadata.title.value;
    assert lines[0] == HeaderLines(r.metadata)[0];
    JoinPrefix(lines, "\n");
  }
}
