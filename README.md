# cooklatex rendering core, modelled in Dafny

cooklatex turns a cookbook of Cooklang recipes into one LaTeX book. This model covers the
part that produces the LaTeX text:

- **Builder** (`latex.dfy`). `LatexBuilder` is a class holding the document's lines. Its methods append:
  - a command line, `\name` followed by `{required}` and `[optional]` arguments;
  - a `\begin{env}` … `\end{env}` pair around another builder's lines;
  - another builder's lines as they are.

  `Build` joins the lines with newlines.
- **Formatting** (`format.dfy`). This covers:
  - durations (`format_time`): "N mins", "H hrs" or "H hrs M mins";
  - LaTeX escaping (`sanitize_latex`) of `&`, `%`, `$` and `#`;
  - quantities ("value unit");
  - timers ("quantity (name)").
- **Aggregation** (`aggregate.dfy`). `get_ingredients_by_section` walks the ingredient mentions of each section's steps. It keys them by ingredient name. The first mention's table index and entry are kept, and every mention's quantity is added through the unit converter. The groups are then sorted by table index.
- **Rendering** (`render.dfy`). This covers:
  - the ingredient listing, one `\ingredient` line per listed group, with an optional marker;
  - the instruction listing, one `\step` line per content entry, with the text of a step built from its items;
  - the `\recipemeta` arguments;
  - the whole recipe: a header, then a `recipe` environment that wraps the `ingredients` and `instructions` environments.
- **Pipeline** (`pipeline.dfy`). This covers two loops:
  - compiling every file of one collection, where a failing file becomes a warning and a collection with no successful file is an error;
  - the table of contents. Each collection gets a `\chapter` line, then `\input` lines for its compiled recipes with `\newpage` between consecutive ones. A collection that failed becomes a warning. A collection whose name cannot be read ends the run.

The supporting modules are:

- `wrappers.dfy`: `Option` and `Result`;
- `strings.dfy`: search, join and split, and the round trip between join and split;
- `cooklang.dfy`: the parsed recipe as the renderer receives it. Steps refer to the recipe's ingredient, cookware, timer and inline-quantity tables by index. `Valid` states that every such index resolves and that every referenced timer has a name or a quantity.

The main results are these:

- `format_time` is injective and can be parsed back.
- Escaping, done as four successive replacements, equals a single-pass escape. That escape can be undone, and it adds one character per reserved character.
- Rendered arguments parse back into the arguments they came from.
- A grouped section is sorted strictly by table index. It holds exactly one group per ingredient name mentioned in the section. Each group keeps the index of the first mention, and its quantity is the converter's sum of all that name's quantities. The sorted result does not depend on the iteration order of the hash map.
- Every rendered recipe document has properly nested `\begin`/`\end` lines.
- The table-of-contents loop equals a fold over the collections, and it stops at the first collection whose name is unreadable.

Two details of the code that the model keeps:

- `sanitize_latex` escapes exactly `&`, `%`, `$` and `#` (`src/recipe.rs:220-226`). Other characters that are special to LaTeX, such as `_`, `{`, `}`, `~`, `^` and `\`, pass through unchanged.
- The ingredient text is the quantities joined by ", ", then a space and the name (`src/recipe.rs:293-305`).

Some text reaches the document without escaping, in the code and in the model alike:

- the title and the description, in `\recipeheader` and `\recipedesc` (`src/recipe.rs:162-163`);
- the arguments of `\recipemeta`: servings, the two formatted times and "Moderate" (`src/recipe.rs:199-204`);
- the collection name in `\chapter` and the recipe paths in `\input` (`src/main.rs:33`, `src/main.rs:39`).

## Model

| member | source | states |
|---|---|---|
| Latex.LatexBuilder.constructor | src/latex.rs:29-31 | a new builder holds no lines |
| Latex.LatexBuilder.AddCommand | src/latex.rs:33-47 | exactly one line is appended, the command's line; earlier lines are kept |
| Latex.LatexBuilder.AddSimpleCommand | src/latex.rs:49-51 | appends the line of the command with a single required argument |
| Latex.LatexBuilder.AddEnv | src/latex.rs:53-57 | appends `\begin{env}`, the other builder's lines, then `\end{env}`: two lines more than the other builder has, and the other builder is unchanged |
| Latex.LatexBuilder.AddBuilder | src/latex.rs:59-62 | appends the other builder's lines in order and leaves the other builder unchanged |
| Latex.LatexBuilder.Build | src/latex.rs:64-66 | an empty builder builds to "" and one line builds to itself; when no line contains a newline, splitting the text at newlines gives back exactly the lines |
| Latex.Optional | src/latex.rs:19-21 | `Arg::optional`: the argument renders as `[value]` |
| Latex.Required | src/latex.rs:23-25 | `Arg::required`: the argument renders as `{value}` |
| Latex.RenderArg | src/latex.rs:36-42 | one argument renders as its value, unescaped, between two brackets: `[` and `]` exactly when it is optional, `{` and `}` exactly when it is required |
| Latex.RenderArgs | src/latex.rs:34-43 | defined as the renderings of the arguments concatenated in order; `ParseRenderArgs` reads the arguments back from it |
| Latex.CommandLine | src/latex.rs:45 | defined as a backslash, the command name and the rendered arguments; `CommandLineShape` states this decomposition |
| Strings.SplitJoin | src/latex.rs:64-66 | joining newline-free lines and splitting at the separator restores the lines |
| Strings.Join | src/latex.rs:64-66 | Rust's `join`: the pieces with the separator between each two of them and none before the first or after the last; an empty list joins to "". It also models the `parts.join(" ")` of src/recipe.rs:305. `SplitJoin` reads the pieces back |
| Latex.CommandLineShape | src/latex.rs:33-47 | a command line is a backslash, then the command name, then the rendered arguments, and nothing else |
| Latex.RenderArgsLast | src/latex.rs:34-43 | a non-empty argument list ends with `]` exactly when its last argument is optional, and with `}` otherwise |
| Latex.ParseRenderArgs | src/latex.rs:34-43 | arguments whose values hold no bracket are read back from their rendering: the rendering loses neither the values, nor their kinds, nor their order |
| Latex.ParseOneArg | src/latex.rs:34-43 | one rendered argument in front of any text is read back as that argument, followed by whatever the rest reads as |
| Latex.SimpleLineIsCommand | src/latex.rs:49-51 | a command with one required argument renders as `\command{arg}` |
| Latex.SimpleLine | src/latex.rs:49-51 | the line of `add_simple_command`, written directly as `\command{arg}`; `SimpleLineIsCommand` shows it is the `CommandLine` with one required argument |
| Latex.BeginLine | src/latex.rs:54 | the opening line of `add_env`: the `begin` command with the environment as its one required argument; `BeginLineOpens` states what it opens |
| Latex.EndLine | src/latex.rs:56 | the closing line of `add_env`: the `end` command with the environment as its one required argument; `EndLineCloses` states what it closes |
| Latex.BeginLineOpens | src/latex.rs:53-57 | the opening line of `add_env` opens exactly that environment and closes none |
| Latex.EndLineCloses | src/latex.rs:53-57 | the closing line of `add_env` closes exactly that environment and opens none |
| Latex.CommandNeutral | src/latex.rs:33-47 | a command whose name starts with neither `b` nor `e` neither opens nor closes an environment |
| Latex.EnvWellNested | src/latex.rs:53-57 | wrapping a well-nested body in an environment, after well-nested lines, gives well-nested lines |
| Latex.NestAppend | src/latex.rs:53-57 | checking the nesting of two consecutive blocks equals checking the first and then the second from where the first left off |
| Latex.NeutralLines | src/latex.rs:33-51 | lines made only of other commands leave the stack of open environments as it was |
| Format.NatToString | src/recipe.rs:131-143 | the decimal numeral of a number is non-empty and all digits |
| Format.DigitsValueOfNatToString | src/recipe.rs:131-143 | the decimal numeral reads back as the number it was written from |
| Format.FormatTime | src/recipe.rs:131-143 | defined as "N mins" under an hour, else "H hrs" on a whole hour, else "H hrs M mins", with H = minutes / 60 and M = minutes % 60; `ParseFormatTime` reads every output back as its minutes |
| Format.ParseFormatTime | src/recipe.rs:131-143 | every formatted duration ("N mins", "H hrs", "H hrs M mins") reads back as its number of minutes |
| Format.ParseMinutesOnly | src/recipe.rs:132-133 | under an hour, "N mins" reads back as N |
| Format.ParseWholeHours | src/recipe.rs:135-138 | whole hours, written "H hrs", read back as 60·H minutes |
| Format.ParseHoursAndMinutes | src/recipe.rs:135-141 | "H hrs M mins" reads back as 60·H + M minutes |
| Format.FormatTimeInjective | src/recipe.rs:131-143 | two different durations never format to the same text |
| Format.FormatMinutesExamples | src/recipe.rs:132-133 | 0 formats as "0 mins" and 59 as "59 mins" |
| Format.FormatWholeHourExample | src/recipe.rs:137-138 | 60 formats as "1 hrs" |
| Format.FormatNinetyExample | src/recipe.rs:139-140 | 90 formats as "1 hrs 30 mins" |
| Format.FormatTwoHoursExample | src/recipe.rs:139-140 | 125 formats as "2 hrs 5 mins" |
| Format.SanitizeLatex | src/recipe.rs:220-226 | defined as the four replacements in the order of the code: `&`, then `%`, then `$`, then `#`; `SanitizeIsEscape` shows it equals the single-pass escape |
| Format.ReplaceChar | src/recipe.rs:221-225 | `str::replace` of one character by a string: every occurrence, left to right, with the replacement text itself not searched again; `ReplaceCharAppend` states that it works piecewise |
| Format.ReplaceCharAppend | src/recipe.rs:221-225 | replacing a character works piecewise over a concatenation |
| Format.SanitizeChar | src/recipe.rs:220-226 | on one character, the four replacements put a backslash before a reserved character and keep any other character as it is |
| Format.SanitizeIsEscape | src/recipe.rs:220-226 | the four successive replacements equal a single left-to-right pass that puts a backslash before each `&`, `%`, `$` and `#`. Backslashes added by an earlier replacement are never matched by a later one |
| Format.EscapeAppend | src/recipe.rs:220-226 | escaping works piecewise over a concatenation |
| Format.EscapeLength | src/recipe.rs:220-226 | escaping adds exactly one character per reserved character |
| Format.UnescapeEscape | src/recipe.rs:220-226 | escaping loses nothing: removing the added backslashes restores the input |
| Format.EscapeHead | src/recipe.rs:220-226 | escaped text never starts with a bare reserved character |
| Format.SanitizeLatexSpec | src/recipe.rs:220-226 | `sanitize_latex` adds one backslash per reserved character, and the input can be recovered from its output |
| Format.FormatQuantity | src/recipe.rs:207-218 | defined as "value unit" when the quantity has a unit and "value" otherwise; `ParseFormatQuantity` reads both back |
| Format.FormatTimer | src/recipe.rs:358-365 | requires a quantity or a name, since the code treats a timer with neither as unreachable; shows "quantity (name)", the quantity alone, or the name alone |
| Format.ParseFormatQuantity | src/recipe.rs:207-218 | a quantity whose value has no space is read back, value and unit, from its "value unit" text, or from the bare value when it has no unit |
| Format.FormatTimerShape | src/recipe.rs:358-365 | a timer shows its quantity, followed by " (name)" when it also has a name; a timer with only a name shows the name |
| Format.ParseTimer | src/recipe.rs:358-365 | reads a timer text back, given whether the timer has a quantity: the text up to one space before its first `(` is the quantity, and the rest up to the closing `)` is the name |
| Format.ParseFormatTimer | src/recipe.rs:358-365 | the quantity and the name of every valid timer are read back from `FormatTimer`'s text, provided the value has no space and neither value nor unit has a `(`; so the text loses neither field |
| Aggregate.ItemMentionsInTable | src/recipe.rs:241-242 | in a valid recipe every ingredient mention indexes the ingredient table |
| Aggregate.ContentMentionsInTable | src/recipe.rs:238-242 | the same holds for all the steps of a section; paragraphs mention nothing |
| Aggregate.FirstPos | src/recipe.rs:245-249 | locates the first mention of a name; no earlier mention carries the name |
| Aggregate.Mention | src/recipe.rs:241-253 | one mention: a new name gets a group with this index, this table entry and no quantity; an existing group is kept (`or_insert`); then the mention's quantity, if any, goes through the converter's `add` |
| Aggregate.GroupMap | src/recipe.rs:238-257 | the map after applying `Mention` to a section's mentions in order, starting from an empty map; `GroupMapKeys`, `GroupMapFirst` and `GroupMapQuantity` state its contents |
| Aggregate.AddMention | src/recipe.rs:241-253 | the new map equals `Mention` of the old map: a new name gets its entry and table index, and the mention's quantity is added when it has one |
| Aggregate.WalkItem | src/recipe.rs:240-255 | handling one more item of a step extends the grouping to the mentions up to and including that item |
| Aggregate.WalkItems | src/recipe.rs:240-255 | after a step's items the map is the grouping of all mentions so far, that step's included |
| Aggregate.WalkSection | src/recipe.rs:238-257 | after a section's walk the map is the grouping of the section's mentions, in order |
| Aggregate.GroupMapSnoc | src/recipe.rs:241-253 | the grouping of one more mention is that mention applied to the grouping so far |
| Aggregate.GroupMapCoherent | src/recipe.rs:245-249 | every group is stored under its ingredient's name, and its entry is the table entry at its index |
| Aggregate.GroupMapKeys | src/recipe.rs:245-249 | the grouped names are exactly the names mentioned |
| Aggregate.GroupMapFirst | src/recipe.rs:245-249 | a group keeps the table index of its name's first mention (`or_insert`) |
| Aggregate.GroupMapQuantity | src/recipe.rs:251-253 | a group's quantity is the converter's running sum of all of that name's quantities, in mention order |
| Aggregate.NoMentionNoQuantities | src/recipe.rs:245-253 | a name without a group has no quantity in the section |
| Aggregate.NoQuantityNoFragment | src/recipe.rs:248-253 | a name mentioned only without quantities gets an empty grouped quantity |
| Aggregate.NamedQuantitiesNone | src/recipe.rs:251-253 | mentions without quantities contribute no quantity |
| Aggregate.CollectValues | src/recipe.rs:260-267 | the collected list holds exactly the map's groups, each name once |
| Aggregate.CoherentDistinct | src/recipe.rs:260-268 | the groups of one section have distinct table indices, so sorting by index leaves no ties |
| Aggregate.InsertionPoint | src/recipe.rs:268 | the position after every smaller-or-equal index and before the first larger one |
| Aggregate.Insert | src/recipe.rs:268 | inserting into an ascending list keeps it ascending, and strictly ascending when the index is new; the result is a permutation of the list plus the element |
| Aggregate.SortByIndex | src/recipe.rs:268 | the output is sorted by index and is a permutation of the input; with distinct indices it is strictly ascending |
| Aggregate.MinExists | src/recipe.rs:268 | a non-empty set of groups has one with the least index |
| Aggregate.SortedByIndex | src/recipe.rs:260-268 | the reference order of a set of groups: the group with the least index first, then the rest in the same way; it does not depend on any iteration order |
| Aggregate.SortedByIndexSpec | src/recipe.rs:268 | the reference order is strictly ascending and holds exactly the given groups |
| Aggregate.SortedUnique | src/recipe.rs:268 | two strictly ascending lists with the same members are equal, so the hash map's iteration order cannot show in the output |
| Aggregate.SameHead | src/recipe.rs:268 | two strictly ascending lists with the same members start with the same group |
| Aggregate.SameTail | src/recipe.rs:268 | after that shared first group, the rest of the two lists have the same members |
| Aggregate.NoMembers | src/recipe.rs:268 | a list without members is empty |
| Aggregate.SectionMentions | src/recipe.rs:238-242 | a section's mentions all index the ingredient table |
| Aggregate.SectionGroups | src/recipe.rs:234-269 | the reference result for one section: the groups of `GroupMap` in `SortedByIndex` order |
| Aggregate.SectionGroupsMembers | src/recipe.rs:259-268 | the sorted groups are exactly the map's groups, strictly ascending by index |
| Aggregate.SectionGroupsByName | src/recipe.rs:234-269 | a section's output is strictly ascending by table index. Each group's entry is the table entry at its index. It has one group per mentioned name, and no name appears twice |
| Aggregate.SectionGroupsFirstMention | src/recipe.rs:245-253 | each output group carries the index of its name's first mention and the converter's sum of all that name's quantities |
| Aggregate.GroupSection | src/recipe.rs:234-269 | one section's loop produces exactly that section's reference grouping |
| Aggregate.GroupsBySection | src/recipe.rs:228-273 | the reference result for a recipe: for each section, in order, its name and its `SectionGroups` |
| Aggregate.IngredientsBySection | src/recipe.rs:228-273 | one entry per section, in section order, with the section's name and its grouped ingredients |
| Render.FormatAll | src/recipe.rs:295-298 | each grouped quantity formats in order, one string per quantity |
| Render.JoinedQuantities | src/recipe.rs:295-298 | the `reduce`: no text for an empty grouped quantity, otherwise the formatted quantities joined by ", " |
| Render.IngredientParts | src/recipe.rs:293-303 | the `parts` vector: the joined quantities when there are any, then the ingredient's name |
| Render.ListedLinesCount | src/recipe.rs:289-291 | a section contributes one line per group that is to be listed, and none when no group is |
| Render.IngredientTextWithoutQuantity | src/recipe.rs:293-305 | an ingredient without quantities shows its escaped name alone |
| Render.IngredientTextWithQuantities | src/recipe.rs:293-305 | an ingredient with quantities shows them joined by ", " then a space and its name, with the first quantity first |
| Render.JoinPrefix | src/recipe.rs:295-298 | a non-empty join starts with its first piece |
| Render.IngredientArgs | src/recipe.rs:293-309 | the escaped text of the quantities and the name as the one required argument, then `[\BooleanTrue]` exactly when the ingredient is optional |
| Render.IngredientLine | src/recipe.rs:311 | the `\ingredient` command with those arguments |
| Render.ListedLines | src/recipe.rs:283-312 | one `IngredientLine` per group whose ingredient is to be listed, in group order; `ListedLinesCount` counts them |
| Render.IngredientHeading | src/recipe.rs:279-281 | the `\ingredientsection` line with the escaped section name when the section is named, and no line otherwise |
| Render.IngredientLines | src/recipe.rs:275-316 | every section's `IngredientHeading` followed by its `ListedLines`, for the sections in order; `IngredientList` builds exactly these lines |
| Render.OptionalMarker | src/recipe.rs:305-311 | an ingredient line ends with the optional marker's `]` exactly when the ingredient is optional |
| Render.AddIngredient | src/recipe.rs:283-312 | appends the ingredient's line when it is to be listed, and nothing otherwise |
| Render.AddIngredientSection | src/recipe.rs:278-312 | appends the section heading when the section is named, then its listed lines in order |
| Render.IngredientList | src/recipe.rs:275-316 | a fresh builder holds the headings and lines of every section in order |
| Render.ItemText | src/recipe.rs:345-354 | a text item reads as its value, an ingredient as its display name, cookware as its name, a timer through `FormatTimer`, an inline quantity through `FormatQuantity` |
| Render.StepText | src/recipe.rs:342-356 | the items' texts concatenated in order; `StepTextAppend` and `StepTextOfTexts` state this |
| Render.ContentText | src/recipe.rs:330-333 | a step reads as its `StepText` and a paragraph as its text |
| Render.StepTextAppend | src/recipe.rs:342-356 | the text of a step splits wherever its items do |
| Render.StepTextOfTexts | src/recipe.rs:342-356 | a step made only of text items reads as those texts run together |
| Render.ContentLines | src/recipe.rs:329-336 | one `\step` line per content entry, in order, carrying the escaped text of the step or paragraph; `ContentLinesCount` counts them |
| Render.InstructionHeading | src/recipe.rs:322-327 | the `\instructionsection` line with the escaped name when the recipe has more than one section and this one is named, and no line otherwise |
| Render.SectionInstructions | src/recipe.rs:321-336 | one section's part of the instructions: its `InstructionHeading`, then its `ContentLines` |
| Render.InstructionLines | src/recipe.rs:321-337 | each section's heading, when the recipe has several sections and this one is named, then its `ContentLines`, for every section in order |
| Render.ContentLinesCount | src/recipe.rs:329-336 | one `\step` line per content entry, whether a step or a paragraph |
| Render.SectionLinesCount | src/recipe.rs:321-336 | a section adds its heading (only when the recipe has several sections and this one is named) plus one line per entry |
| Render.AddStep | src/recipe.rs:329-335 | appends the `\step` line carrying the entry's escaped text |
| Render.AddSteps | src/recipe.rs:329-336 | appends a section's `\step` lines in order |
| Render.AddInstructionHeading | src/recipe.rs:322-327 | appends the `\instructionsection` heading with the escaped name exactly when the recipe has several sections and this one is named, and nothing otherwise |
| Render.AddInstructionSection | src/recipe.rs:321-336 | appends one section's instructions: the heading when due, then its steps |
| Render.InstructionLinesNext | src/recipe.rs:321-337 | the instructions of one more section extend those so far by that section's lines |
| Render.AddInstructions | src/recipe.rs:321-337 | appends every section's instructions in order |
| Render.InstructionList | src/recipe.rs:318-340 | a fresh builder holds the instructions of the whole recipe |
| Render.TimeText | src/recipe.rs:189-197 | an absent time is the empty text; a present one reads back as its minutes |
| Render.RecipeMeta | src/recipe.rs:183-205 | four required arguments: servings, prep time, cook time, "Moderate". A time is empty exactly when it is absent |
| Render.RecipeMetaTimes | src/recipe.rs:189-202 | the prep and cook time arguments read back as the recipe's times |
| Render.BuildRecipeContent | src/recipe.rs:169-181 | a fresh builder holding the `ingredients` environment (grouped listing) then the `instructions` environment |
| Render.RecipeContentLines | src/recipe.rs:169-181 | `\begin{ingredients}`, the grouped ingredient lines, `\end{ingredients}`, then `\begin{instructions}`, the instruction lines, `\end{instructions}` |
| Render.AddHeader | src/recipe.rs:161-164 | appends `\recipeheader`, `\recipedesc` and `\recipemeta`, in that order |
| Render.HeaderLines | src/recipe.rs:161-164 | `\recipeheader{title}`, `\recipedesc{description}` and the `\recipemeta` line with `RecipeMeta`'s four arguments, title and description unescaped |
| Render.RecipeLines | src/recipe.rs:156-166 | the whole document's lines: `HeaderLines`, then the `recipe` environment around `RecipeContentLines` |
| Render.CreateRecipe | src/recipe.rs:146-167 | a missing title is the error "Recipe must have a title". A missing description is the error "Recipe must have a description". Otherwise the result is the header followed by the `recipe` environment around the content, joined by newlines |
| Render.ListedLinesNeutral | src/recipe.rs:311 | ingredient lines open or close no environment |
| Render.IngredientLinesNeutral | src/recipe.rs:275-316 | the whole ingredient listing opens or closes no environment |
| Render.ContentLinesNeutral | src/recipe.rs:335 | step lines open or close no environment |
| Render.InstructionLinesNeutral | src/recipe.rs:318-340 | the whole instruction listing opens or closes no environment |
| Render.HeaderNeutral | src/recipe.rs:161-164 | the header lines open or close no environment |
| Render.RecipeContentWellNested | src/recipe.rs:169-181 | the recipe content's `\begin` and `\end` lines match up |
| Render.RecipeWellNested | src/recipe.rs:161-166 | the whole recipe document's `\begin` and `\end` lines match up |
| Render.RecipeStartsWithHeader | src/recipe.rs:161-162 | the document starts with `\recipeheader{title}` |
| Pipeline.TranspileCollection | src/recipe.rs:52-74 | the result is the output paths of the files that compiled, in order. An unreadable directory, an unreadable name or no compiled file is an error. Each failed file gives one warning, and no warning is given when the run stops before the loop |
| Pipeline.CollectionResult | src/recipe.rs:52-74 | the reference outcome: an unlisted directory is an error, then an unreadable name, then an empty list of successes; otherwise the successes; `CollectionFails` states when it fails |
| Pipeline.Successes | src/recipe.rs:59-67 | the output paths of the files that compiled, in file order; `SuccessesMember` and `SuccessesAll` state its contents |
| Pipeline.Failures | src/recipe.rs:62-65 | one warning per file that failed, in file order, naming its path and error |
| Pipeline.WarningText | src/recipe.rs:63-64 | how a warning reads: "Warning: Failed to compile recipe path: error" for a file and, as at src/main.rs:45, "Warning: Failed to process collection name: error" for a collection |
| Pipeline.ErrorText | src/recipe.rs:53-71 | how a collection error reads: "Failed to read collection: path" for an unlisted directory, the name's own error for an unreadable name, and "No recipes were successfully compiled in collection: name" when nothing compiled |
| Pipeline.SuccessesAppend | src/recipe.rs:59-67 | successes and failures of consecutive files concatenate |
| Pipeline.SuccessesCount | src/recipe.rs:59-67 | every file is either a success or a warning, never both or neither |
| Pipeline.SuccessesMember | src/recipe.rs:59-67 | a path is returned if and only if some file compiled to it |
| Pipeline.SuccessesAll | src/recipe.rs:59-67 | when every file compiles, the result is every output, in file order |
| Pipeline.SuccessesEmpty | src/recipe.rs:69-71 | nothing is returned if and only if every file failed |
| Pipeline.CollectionFails | src/recipe.rs:52-74 | a collection fails if and only if its directory or name cannot be read, or all its files fail; a success is never empty |
| Pipeline.NewPageIsCommand | src/main.rs:41 | the page break is `\newpage`, a command without arguments |
| Pipeline.InputLine | src/main.rs:39 | the `\input{file}` line of one recipe file, unescaped |
| Pipeline.NewPage | src/main.rs:41 | the `\newpage` line; `NewPageIsCommand` shows it is `add_command("newpage", &[])` |
| Pipeline.InputEntry | src/main.rs:38-42 | a file's `\input` line, followed by `\newpage` exactly when another file follows |
| Pipeline.InputLines | src/main.rs:37-43 | the entries of every file in order; `InputLinesShape` and `InputLinesEnd` state the layout |
| Pipeline.InputLinesShape | src/main.rs:37-43 | `\input` lines sit at even positions in file order, with `\newpage` between consecutive ones and none after the last |
| Pipeline.InputLinesEnd | src/main.rs:37-43 | n files give 2n − 1 lines, the last one being the last file's `\input` |
| Pipeline.AddInput | src/main.rs:38-42 | appends a file's `\input` line and, when another file follows, `\newpage` |
| Pipeline.AddInputs | src/main.rs:37-43 | appends the `\input`/`\newpage` block of a collection's files |
| Pipeline.CollectionLines | src/main.rs:33-43 | the `\chapter` line, then the `InputLines` of the files when the collection compiled, and nothing more when it failed |
| Pipeline.AddCollection | src/main.rs:33-46 | appends the `\chapter` line, then the inputs when the collection compiled |
| Pipeline.TocStep | src/main.rs:30-46 | the reference turn: nothing after a failure; an unreadable name becomes the failure; otherwise the collection's lines and its warning, if any, are appended |
| Pipeline.TocUpTo | src/main.rs:29-47 | the reference fold of `TocStep` over the first n collections, starting from no lines, no warnings and no failure |
| Pipeline.TocStepGrows | src/main.rs:29-47 | one turn only extends the lines and warnings, and does nothing after a failure |
| Pipeline.TocNext | src/main.rs:29-47 | after one more collection, the table of contents is that collection's turn applied to the table so far |
| Pipeline.VisitCollection | src/main.rs:30-46 | one turn of the loop does what the reference turn does to the failure, the warnings and, when the turn continues, the lines |
| Pipeline.AddCollections | src/main.rs:29-47 | the loop ends in the reference fold's failure and warnings, and with its lines when no name failed |
| Pipeline.TableOfContents | src/main.rs:27-49 | the first unreadable collection name is the error; otherwise the text is the fold's lines joined by newlines, and the warnings are the fold's |
| Pipeline.TocStops | src/main.rs:31 | once a collection name fails, later collections change nothing |
| Pipeline.TocFailure | src/main.rs:31 | the run fails if and only if some collection's name cannot be read. The error is that of the first such collection, and every earlier name was read |
| Pipeline.NamesReadStep | src/main.rs:31 | the names of n collections were all read exactly when the first n − 1 were and the n-th was too |
| Pipeline.TocFailureStep | src/main.rs:31 | the failure after n collections is the earlier failure, else the n-th name's error, else none |
| Pipeline.TocGrows | src/main.rs:29-47 | the lines and the warnings only grow as more collections are visited |
| Pipeline.TocCounts | src/main.rs:29-47 | when no name fails, a compiled collection with k files adds 2k lines, and any other collection adds one. Each failed collection adds one warning |

## Left out

- Parsing the Cooklang source, loading the unit configuration and building the converter are not part of this model. The parsed `Recipe` is an input, and the converter's `add` is an abstract function; unit arithmetic happens inside it.
- A quantity's value is kept as the text its `Display` produces. How numbers, fractions and ranges are displayed is not modelled.
- File system, processes and output are left out. These are:
  - listing a collection's directory, compiling and writing each recipe file (`transpile_recipe`, `write_recipe`);
  - the last component of a collection's path (`get_collection_name`);
  - cloning the LaTeX template;
  - `replace_in_main_tex`.

  Each of these outcomes is an input (`FileOutcome`, `Collection`, the directory listing, the name result). `TableOfContents` returns the built text that `main` would substitute into `main.tex`.
- Messages printed with `eprintln!` are returned as `Warning` values. The printing itself is left out.
  - `TranspileCollection` returns the per-file warnings of one collection, in file order (`src/recipe.rs:64`).
  - `TableOfContents` returns the collection warnings, in collection order (`src/main.rs:45`).
  - A collection's outcome reaches `TableOfContents` as an input (`Collection.compiled`), not as the result of a call to `TranspileCollection`. So the model does not capture how `main` interleaves each collection's per-file warnings with the collection warnings on standard error.
- For `anyhow` errors the model keeps only the message that `Display` shows, which is the outermost context.
- The `&mut Self` return used for chaining builder calls is left out; the methods are called one after another instead.
- Durations are unbounded `nat` values, not `u64`; the `u64` range of metadata times is not modelled.
- Servings are kept as the text their `to_string()` produces (`src/recipe.rs:184-187`). How servings are displayed is not modelled.
- The `HashMap` iteration order is arbitrary. `CollectValues` picks keys in an unspecified order, and only properties that hold for every order are stated.
- Some conditions where the code panics are modelled as preconditions:
  - a recipe with a title and a description but no servings (`expect`);
  - an item index outside its table;
  - a timer with neither quantity nor name (`unreachable!`).

  `RecipeMeta`, `CreateRecipe` and `FormatTimer` require the ones they need. `CreateRecipe` also requires `Valid`, which excludes the last two.
- Render.ItemText: on an item whose index is out of range, or on a timer with neither quantity nor name, it gives the empty text where the code panics. `StepText`, `ContentLines`, `InstructionLines` and `InstructionList` inherit this, so they need no validity precondition.
- Logging of unit-conversion warnings, and the `--convert` option of the transpiler, are not part of this model.
