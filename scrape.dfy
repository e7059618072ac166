/** `parseRecipe` of scraper/scrape.js: one downloaded page becomes a recipe record, field by
    field, structured data (the page's JSON-LD Recipe) first and the page markup second, and
    the record is projected into the compact `titleDB` entry.

    A page is modelled by what the program's selectors read from it (see `Page`); the
    selector engine itself is not part of this model. Each field has a specification
    function (`TitleOf`, `IngredientsOf`, `MethodOf`, `TimesOf`, `ServesOf`, `ImageOf`),
    `RecipeOf` composes them, and the methods build the same record step by step as the
    source does. */
module Scrape {
  import opened Wrappers
  import opened JsString
  import opened JsonValue
  import opened Duration
  import opened JsonLd

  /** What the selectors read from one page. */
  datatype Page = Page(
    scripts: seq<Option<Json>>,        // each `application/ld+json` block; None: empty text or not JSON
    heading: string,                   // text of `h1.content-title__text`
    ingredientItems: seq<string>,      // texts of `.recipe-ingredients__list-item`
    methodItems: seq<string>,          // texts of `.recipe-method__list-item-text`
    prepTimeText: string,              // text of `.recipe-metadata__prep-time`
    prepTimeContent: Option<string>,   // its `content` attribute
    cookTimeText: string,              // text of `.recipe-metadata__cook-time`
    cookTimeContent: Option<string>,   // its `content` attribute
    servingText: string,               // text of `.recipe-metadata__serving`
    ogImage: Option<string>,           // `content` of `meta[property="og:image"]`
    vegetarianMarker: bool,            // some `.recipe-metadata__dietary-vegetarian` exists
    recommendationsText: string)       // text of `.recipe-metadata__recommendations`

  /** `recipe.time`. The display fields keep whatever value they were given (a JSON value or
      the markup text); the minute fields are numbers. */
  datatype Times = Times(
    preparation: Json, preparationMins: int,
    cooking: Json, cookingMins: int,
    totalMins: int)

  /** The record `parseRecipe` returns. `image` is `JNull` when the property is absent. */
  datatype Recipe = Recipe(
    url: string,
    title: Json,
    ingredients: seq<string>,
    steps: seq<string>,                // recipe.method
    time: Times,
    serves: Json,
    image: Json,
    isVegetarian: bool,
    recommendations: int)

  /** A `titleDB` entry: the JSON object `recipeData`, keyed by property name. */
  type Entry = map<string, Json>

  const Placeholder := "bbc_placeholder.png"

  // ---------------------------------------------------------------------------
  // Field specifications

  /** `jsonLd && Array.isArray(jsonLd[key]) && jsonLd[key].length`: the elements of a
      non-empty structured array, or None when the markup is to be used. */
  function StructuredList(jsonLd: Option<Json>, key: string): (r: Option<seq<Json>>)
    ensures r.Some? ==> jsonLd.Some? && Get(jsonLd.value, key) == JArr(r.value) && r.value != []
    ensures r.None? ==> jsonLd.None? || !Get(jsonLd.value, key).JArr? || Get(jsonLd.value, key).items == []
  {
    if jsonLd.Some? && Get(jsonLd.value, key).JArr? && Get(jsonLd.value, key).items != []
    then Some(Get(jsonLd.value, key).items)
    else None
  }

  /** The title: structured `name`, else `headline`, else the trimmed heading text. */
  function TitleOf(jsonLd: Option<Json>, heading: string): (title: Json)
  {
    var structured := if jsonLd.Some? then Or(Get(jsonLd.value, "name"), Get(jsonLd.value, "headline")) else JNull;
    Or(structured, JStr(Trim(heading)))
  }

  /** One markup ingredient: cut before its first line break, but only when that break is
      not the first character. */
  function CutAtNewline(text: string): (r: string)
    ensures |r| <= |text| && r == text[..|r|]
    ensures r != text <==> '\n' in text && text[0] != '\n'
    ensures r != text ==> r != [] && '\n' !in r && text[|r|] == '\n'
  {
    var lineBreak := IndexOfChar(text, '\n');
    if lineBreak > 0 then text[..lineBreak] else text
  }

  /** One structured ingredient: a string trimmed, anything else the empty string. */
  function IngredientOf(item: Json): (r: string)
    ensures Trimmed(r)
    ensures item.JStr? ==> r == Trim(item.s)
    ensures !item.JStr? ==> r == ""
  {
    if item.JStr? then Trim(item.s) else ""
  }

  /** The ingredient list. A non-empty structured `recipeIngredient` array gives one entry per
      element, in order; otherwise each markup item gives one entry, in order. */
  function IngredientsOf(jsonLd: Option<Json>, items: seq<string>): (r: seq<string>)
    ensures var xs := StructuredList(jsonLd, "recipeIngredient");
      xs.Some? ==> |r| == |xs.value| && forall k :: 0 <= k < |r| ==> r[k] == IngredientOf(xs.value[k])
    ensures StructuredList(jsonLd, "recipeIngredient").None? ==>
      |r| == |items| && forall k :: 0 <= k < |r| ==> r[k] == CutAtNewline(items[k])
  {
    var xs := StructuredList(jsonLd, "recipeIngredient");
    if xs.Some? then seq(|xs.value|, k requires 0 <= k < |xs.value| => IngredientOf(xs.value[k]))
    else seq(|items|, k requires 0 <= k < |items| => CutAtNewline(items[k]))
  }

  /** `text.trim()` on a truthy `text` property: throws unless it is a string. */
  function TextStep(text: Json): (r: Result<string>)
    ensures r.Ok? <==> text.JStr?
    ensures r.Ok? ==> r.value == Trim(text.s)
  {
    if text.JStr? then Ok(Trim(text.s)) else Throws
  }

  /** The sub-steps of a nested array: each truthy element whose `text` is truthy gives its
      trimmed text, in order. */
  function SubSteps(subs: seq<Json>): (r: Result<seq<string>>)
  {
    if subs == [] then Ok([])
    else
      var init :- SubSteps(subs[..|subs| - 1]);
      var sub := subs[|subs| - 1];
      if Truthy(sub) && Truthy(Get(sub, "text")) then
        var step :- TextStep(Get(sub, "text"));
        Ok(init + [step])
      else Ok(init)
  }

  /** What one element of `recipeInstructions` contributes. A falsy element nothing; a string
      its trimmed self; a value with a truthy `text` that text trimmed; an array its
      sub-steps. The source's further `HowToStep` branch also needs a truthy `text`, so the
      branch before it has always been taken and it contributes nothing of its own. */
  function ItemSteps(item: Json): (r: Result<seq<string>>)
  {
    if !Truthy(item) then Ok([])
    else if item.JStr? then Ok([Trim(item.s)])
    else if Truthy(Get(item, "text")) then
      var step :- TextStep(Get(item, "text"));
      Ok([step])
    else if item.JArr? then SubSteps(item.items)
    else Ok([])
  }

  /** The structured steps: what the elements contribute, concatenated in order. The first
      element that throws ends the walk. */
  function Steps(items: seq<Json>): (r: Result<seq<string>>)
  {
    if items == [] then Ok([])
    else
      var init :- Steps(items[..|items| - 1]);
      var more :- ItemSteps(items[|items| - 1]);
      Ok(init + more)
  }

  /** The method list: the structured steps when `recipeInstructions` is a non-empty array,
      otherwise the markup items as they are. */
  function MethodOf(jsonLd: Option<Json>, items: seq<string>): (r: Result<seq<string>>)
  {
    var xs := StructuredList(jsonLd, "recipeInstructions");
    if xs.Some? then Steps(xs.value) else Ok(items)
  }

  /** `jsonLd.prepTime || jsonLd.preparation`: the structured preparation duration. */
  function PrepSource(j: Json): Json {
    Or(Get(j, "prepTime"), Get(j, "preparation"))
  }

  /** The times as the structured block sets them: prep and cook minutes from their
      durations (0 when falsy), the total from `totalTime`, else prep plus cook. */
  function StructuredTimes(j: Json): (r: Result<Times>)
  {
    var prep, cook, total := ParseTime(PrepSource(j)), ParseTime(Get(j, "cookTime")), ParseTime(Get(j, "totalTime"));
    if prep.Throws? || cook.Throws? || total.Throws? then Throws
    else
      var p, c := OrZero(prep.value), OrZero(cook.value);
      Ok(Times(Or(PrepSource(j), JNull), p, Or(Get(j, "cookTime"), JNull), c,
               if TruthyTime(total.value) then total.value.n else p + c))
  }

  /** The markup block, run when the total is still 0: each display field keeps a truthy
      value and otherwise takes the markup text; each minute field keeps a non-zero value and
      otherwise parses the `content` attribute; the total becomes prep plus cook. */
  function MarkupTimes(t: Times, page: Page): (r: Times)
  {
    var p := if t.preparationMins != 0 then t.preparationMins
             else OrZero(ParseTime(Attr(page.prepTimeContent)).value);
    var c := if t.cookingMins != 0 then t.cookingMins
             else OrZero(ParseTime(Attr(page.cookTimeContent)).value);
    Times(Or(t.preparation, JStr(page.prepTimeText)), p,
          Or(t.cooking, JStr(page.cookTimeText)), c, p + c)
  }

  /** `recipe.time` after both blocks. Without structured data the total starts undefined,
      which the markup block treats as 0. */
  function TimesOf(jsonLd: Option<Json>, page: Page): (r: Result<Times>)
  {
    var t :- if jsonLd.Some? then StructuredTimes(jsonLd.value) else Ok(Times(JNull, 0, JNull, 0, 0));
    Ok(if t.totalMins != 0 then t else MarkupTimes(t, page))
  }

  /** Servings: structured `recipeYield`, else `yield`, else the markup text. */
  function ServesOf(jsonLd: Option<Json>, page: Page): (r: Json)
  {
    var structured := if jsonLd.Some? then Or(Get(jsonLd.value, "recipeYield"), Get(jsonLd.value, "yield")) else JNull;
    Or(structured, JStr(page.servingText))
  }

  /** The image before the placeholder test. A truthy structured `image` is used as a
      string, as its first element, or through its `url`, and otherwise gives nothing; the
      `og:image` meta tag is read only when there is no truthy structured `image`. */
  function ImageCandidate(jsonLd: Option<Json>, page: Page): (r: Json)
  {
    if jsonLd.Some? && Truthy(Get(jsonLd.value, "image")) then
      var image := Get(jsonLd.value, "image");
      if image.JStr? then image
      else if image.JArr? && image.items != [] then image.items[0]
      else if Truthy(Get(image, "url")) then Get(image, "url")
      else JNull
    else Attr(page.ogImage)
  }

  /** The placeholder test on a truthy image: the image is deleted when `indexOf` finds
      the placeholder file name in it. A string loses the image when it contains the name,
      an array when one of its elements is exactly that name; any other truthy value has no
      `indexOf`, so the call throws. */
  function DropPlaceholder(image: Json): (r: Result<Json>)
    ensures r.Ok? ==> r.value == image || r.value == JNull
    ensures !Truthy(image) ==> r == Ok(image)
    ensures image.JStr? && !Contains(image.s, Placeholder) ==> r == Ok(image)
    ensures image.JArr? && JStr(Placeholder) !in image.items ==> r == Ok(image)
    ensures image.JStr? && Contains(image.s, Placeholder) ==> r == Ok(JNull)
    ensures image.JArr? && JStr(Placeholder) in image.items ==> r == Ok(JNull)
    ensures r == Throws <==> Truthy(image) && !image.JStr? && !image.JArr?
  {
    if !Truthy(image) then Ok(image)
    else if image.JStr? then Ok(if Contains(image.s, Placeholder) then JNull else image)
    else if image.JArr? then Ok(if JStr(Placeholder) in image.items then JNull else image)
    else Throws
  }

  function ImageOf(jsonLd: Option<Json>, page: Page): (r: Result<Json>)
  {
    DropPlaceholder(ImageCandidate(jsonLd, page))
  }

  /** `parseInt(text) || 0`. */
  function IntOrZero(p: Option<int>): (n: int)
    ensures p.None? ==> n == 0
    ensures p.Some? ==> n == p.value
  {
    if p.Some? then p.value else 0
  }

  /** The record built from a page whose structured data is `jsonLd`: `Ok(None)` when the
      title is falsy (the function returns `null`), `Throws` when a string method meets a
      value that is not a string, and the record otherwise. */
  function RecipeFrom(url: string, jsonLd: Option<Json>, page: Page): (r: Result<Option<Recipe>>)
  {
    var title := TitleOf(jsonLd, page.heading);
    if !Truthy(title) then Ok(None)
    else
      var steps, time, image := MethodOf(jsonLd, page.methodItems), TimesOf(jsonLd, page), ImageOf(jsonLd, page);
      if steps.Throws? || time.Throws? || image.Throws? then Throws
      else Ok(Some(Recipe(url, title, IngredientsOf(jsonLd, page.ingredientItems), steps.value, time.value,
                          ServesOf(jsonLd, page), image.value, page.vegetarianMarker,
                          IntOrZero(ParseInt(page.recommendationsText)))))
  }

  /** What `parseRecipe` does with a page whose key is `url`: the structured data is the
      first JSON-LD Recipe on the page. */
  function RecipeOf(url: string, page: Page): (r: Result<Option<Recipe>>)
  {
    RecipeFrom(url, FirstRecipe(page.scripts), page)
  }

  /** The compact entry: `t` is the title and `l` the number of ingredients, always; `i`
      (as 1) when there is an image, `v` (as 1) when vegetarian, `p`, `c` and `r` when their
      number is not 0; no other key. */
  function EntryOf(recipe: Recipe): (e: Entry)
    ensures e.Keys <= {"t", "l", "i", "v", "p", "c", "r"}
    ensures "t" in e && e["t"] == recipe.title
    ensures "l" in e && e["l"] == JNum(|recipe.ingredients| as real)
    ensures "i" in e <==> Truthy(recipe.image)
    ensures "v" in e <==> recipe.isVegetarian
    ensures "p" in e <==> recipe.time.preparationMins != 0
    ensures "c" in e <==> recipe.time.cookingMins != 0
    ensures "r" in e <==> recipe.recommendations != 0
    ensures "i" in e ==> e["i"] == JNum(1.0)
    ensures "v" in e ==> e["v"] == JNum(1.0)
    ensures "p" in e ==> e["p"] == JNum(recipe.time.preparationMins as real)
    ensures "c" in e ==> e["c"] == JNum(recipe.time.cookingMins as real)
    ensures "r" in e ==> e["r"] == JNum(recipe.recommendations as real)
  {
    var e := map["t" := recipe.title, "l" := JNum(|recipe.ingredients| as real)];
    var e := if Truthy(recipe.image) then e["i" := JNum(1.0)] else e;
    var e := if recipe.isVegetarian then e["v" := JNum(1.0)] else e;
    var e := if recipe.time.preparationMins != 0 then e["p" := JNum(recipe.time.preparationMins as real)] else e;
    var e := if recipe.time.cookingMins != 0 then e["c" := JNum(recipe.time.cookingMins as real)] else e;
    if recipe.recommendations != 0 then e["r" := JNum(recipe.recommendations as real)] else e
  }

  /** `recipe.url`: the file path with its first `|recipeDir| + 1` characters and its last
      five characters removed, with JavaScript's clamping of `substring` bounds. */
  function RecipeKey(name: string, recipeDir: string): (key: string)
    ensures |key| <= |name|
    ensures |name| >= |recipeDir| + 6 ==> key == name[|recipeDir| + 1..|name| - 5]
    ensures |name| <= |recipeDir| + 6 ==> key == []
  {
    var rest := SubstringFrom(name, |recipeDir| + 1);
    SubstringTo(rest, |rest| - 5)
  }

  // ---------------------------------------------------------------------------
  // The imperative build

  /** The ingredient list as the source builds it: a `map` over the structured array, or a
      push per markup item. */
  method CollectIngredients(jsonLd: Option<Json>, items: seq<string>) returns (ingredients: seq<string>)
    ensures ingredients == IngredientsOf(jsonLd, items)
  {
    var xs := StructuredList(jsonLd, "recipeIngredient");
    if xs.Some? {
      ingredients := seq(|xs.value|, k requires 0 <= k < |xs.value| => IngredientOf(xs.value[k]));
      return;
    }
    ingredients := [];
    for i := 0 to |items|
      invariant |ingredients| == i
      invariant forall k :: 0 <= k < i ==> ingredients[k] == CutAtNewline(items[k])
    {
      var text := items[i];
      var lineBreak := IndexOfChar(text, '\n');
      if lineBreak > 0 {
        ingredients := ingredients + [text[..lineBreak]];
      } else {
        ingredients := ingredients + [text];
      }
    }
  }

  /** `recipe.method` extended by what a computation contributes, unless it threw. */
  function Extend(steps: seq<string>, more: Result<seq<string>>): (r: Result<seq<string>>)
    ensures r.Ok? <==> more.Ok?
    ensures r.Ok? ==> |r.value| == |steps| + |more.value|
    ensures r.Ok? ==> r.value[..|steps|] == steps && r.value[|steps|..] == more.value
  {
    if more.Ok? then Ok(steps + more.value) else Throws
  }

  /** The inner `forEach` over a nested array: pushes the trimmed text of each element that
      has a truthy `text`, or throws. */
  method PushSubSteps(subs: seq<Json>, steps: seq<string>) returns (r: Result<seq<string>>)
    ensures r == Extend(steps, SubSteps(subs))
  {
    var acc := steps;
    assert steps + [] == steps;
    for j := 0 to |subs|
      invariant |steps| <= |acc| && acc[..|steps|] == steps
      invariant SubSteps(subs[..j]) == Ok(acc[|steps|..])
    {
      var sub := subs[j];
      SubStepsSnoc(subs[..j + 1]);
      assert subs[..j + 1][..j] == subs[..j] && subs[..j + 1][j] == sub;
      if Truthy(sub) && Truthy(Get(sub, "text")) {
        var text := Get(sub, "text");
        if !text.JStr? {
          SubStepsThrowsOnward(subs, j + 1);
          return Throws;
        }
        assert (acc + [Trim(text.s)])[|steps|..] == acc[|steps|..] + [Trim(text.s)];
        acc := acc + [Trim(text.s)];
      }
    }
    assert subs[..|subs|] == subs;
    assert acc == steps + acc[|steps|..];
    return Ok(acc);
  }

  /** The last sub-step extends the sub-steps before it. */
  lemma SubStepsSnoc(subs: seq<Json>)
    requires subs != []
    ensures var init, sub := SubSteps(subs[..|subs| - 1]), subs[|subs| - 1];
      SubSteps(subs) ==
        if init.Throws? then Throws
        else if !(Truthy(sub) && Truthy(Get(sub, "text"))) then init
        else if Get(sub, "text").JStr? then Ok(init.value + [Trim(Get(sub, "text").s)])
        else Throws
  {
  }

  /** The callback of `recipeInstructions.forEach` for one element: pushes its steps onto
      `steps` (with an inner loop for a nested array), or throws. */
  method PushItemSteps(item: Json, steps: seq<string>) returns (r: Result<seq<string>>)
    ensures r == Extend(steps, ItemSteps(item))
  {
    assert steps + [] == steps;
    if !Truthy(item) {
      return Ok(steps);
    } else if item.JStr? {
      return Ok(steps + [Trim(item.s)]);
    } else if Truthy(Get(item, "text")) {
      var text := Get(item, "text");
      if !text.JStr? {
        return Throws;
      }
      return Ok(steps + [Trim(text.s)]);
    } else if item.JArr? {
      r := PushSubSteps(item.items, steps);
      return;
    }
    return Ok(steps);
  }

  /** The method list as the source builds it: the `forEach` over the structured steps,
      stopping at the first throw, or a push per markup item. */
  method CollectMethod(jsonLd: Option<Json>, items: seq<string>) returns (r: Result<seq<string>>)
    ensures r == MethodOf(jsonLd, items)
  {
    var xs := StructuredList(jsonLd, "recipeInstructions");
    if xs.None? {
      var steps := [];
      for i := 0 to |items|
        invariant steps == items[..i]
      {
        steps := steps + [items[i]];
      }
      assert items[..|items|] == items;
      return Ok(steps);
    }
    var instructions := xs.value;
    var steps := [];
    for i := 0 to |instructions|
      invariant Steps(instructions[..i]) == Ok(steps)
    {
      assert instructions[..i + 1][..i] == instructions[..i];
      assert instructions[..i + 1][i] == instructions[i];
      var next := PushItemSteps(instructions[i], steps);
      if next.Throws? {
        StepsThrowsOnward(instructions, i + 1);
        return Throws;
      }
      steps := next.value;
    }
    assert instructions[..|instructions|] == instructions;
    return Ok(steps);
  }

  /** Once a prefix of the sub-steps throws, every longer prefix throws. */
  lemma {:induction false} SubStepsThrowsOnward(subs: seq<Json>, n: nat)
    requires n <= |subs| && SubSteps(subs[..n]) == Throws
    ensures SubSteps(subs) == Throws
    decreases |subs| - n
  {
    if n < |subs| {
      assert subs[..n + 1][..n] == subs[..n];
      SubStepsThrowsOnward(subs, n + 1);
    } else {
      assert subs[..n] == subs;
    }
  }

  /** Once a prefix of the steps throws, every longer prefix throws. */
  lemma {:induction false} StepsThrowsOnward(items: seq<Json>, n: nat)
    requires n <= |items|
    ensures Steps(items[..n]) == Throws ==> Steps(items) == Throws
    decreases |items| - n
  {
    if n < |items| {
      assert items[..n + 1][..n] == items[..n];
      StepsThrowsOnward(items, n + 1);
    } else {
      assert items[..n] == items;
    }
  }

  /** `recipe.time` as the source sets it: the structured block, then the markup block
      when the total is still 0. */
  method ReconcileTimes(jsonLd: Option<Json>, page: Page) returns (r: Result<Times>)
    ensures r == TimesOf(jsonLd, page)
  {
    var preparation, preparationMins, cooking, cookingMins, totalMins := JNull, 0, JNull, 0, 0;
    if jsonLd.Some? {
      var j := jsonLd.value;
      preparation := Or(PrepSource(j), JNull);
      var prep := ParseTime(PrepSource(j));
      if prep.Throws? {
        return Throws;
      }
      preparationMins := OrZero(prep.value);
      cooking := Or(Get(j, "cookTime"), JNull);
      var cook := ParseTime(Get(j, "cookTime"));
      if cook.Throws? {
        return Throws;
      }
      cookingMins := OrZero(cook.value);
      var total := ParseTime(Get(j, "totalTime"));
      if total.Throws? {
        return Throws;
      }
      totalMins := if TruthyTime(total.value) then total.value.n else preparationMins + cookingMins;
      ghost var st := StructuredTimes(j).value;
      assert StructuredTimes(j) == Ok(st);
      assert st == Times(preparation, preparationMins, cooking, cookingMins, totalMins);
    }
    ghost var structured := Times(preparation, preparationMins, cooking, cookingMins, totalMins);
    if totalMins == 0 {
      preparation := Or(preparation, JStr(page.prepTimeText));
      if preparationMins == 0 {
        preparationMins := OrZero(ParseTime(Attr(page.prepTimeContent)).value);
      }
      cooking := Or(cooking, JStr(page.cookTimeText));
      if cookingMins == 0 {
        cookingMins := OrZero(ParseTime(Attr(page.cookTimeContent)).value);
      }
      totalMins := preparationMins + cookingMins;
      assert MarkupTimes(structured, page) == Times(preparation, preparationMins, cooking, cookingMins, totalMins);
    }
    r := Ok(Times(preparation, preparationMins, cooking, cookingMins, totalMins));
  }

  /** `parseRecipe` up to the `titleDB` write: the record built field by field, with
      `recipe.time` set by the structured block and then patched by the markup block. */
  method BuildRecipe(url: string, page: Page) returns (r: Result<Option<Recipe>>)
    ensures r == RecipeOf(url, page)
  {
    var jsonLd := ExtractJsonLdRecipe(page.scripts);
    r := BuildFrom(url, jsonLd, page);
  }

  /** The build once the structured data is known. */
  method BuildFrom(url: string, jsonLd: Option<Json>, page: Page) returns (r: Result<Option<Recipe>>)
    ensures r == RecipeFrom(url, jsonLd, page)
  {
    var title := TitleOf(jsonLd, page.heading);
    if !Truthy(title) {
      return Ok(None);
    }

    var ingredients := CollectIngredients(jsonLd, page.ingredientItems);
    var steps := CollectMethod(jsonLd, page.methodItems);
    if steps.Throws? {
      return Throws;
    }

    var time := ReconcileTimes(jsonLd, page);
    if time.Throws? {
      return Throws;
    }

    var image := DropPlaceholder(ImageCandidate(jsonLd, page));
    if image.Throws? {
      return Throws;
    }

    var recipe := Recipe(url, title, ingredients, steps.value, time.value, ServesOf(jsonLd, page),
                         image.value, page.vegetarianMarker, IntOrZero(ParseInt(page.recommendationsText)));
    assert RecipeFrom(url, jsonLd, page) == Ok(Some(recipe)) by {
      assert ingredients == IngredientsOf(jsonLd, page.ingredientItems);
      assert steps == MethodOf(jsonLd, page.methodItems) && time == TimesOf(jsonLd, page);
      assert image == ImageOf(jsonLd, page);
    }
    r := Ok(Some(recipe));
  }

  /** The scraper's state: the directory the pages were read from and the shared `titleDB`
      that every parsed page writes its entry into. */
  class Scraper {
    const recipeDir: string
    var titleDB: map<string, Entry>

    constructor (recipeDir: string)
      ensures this.recipeDir == recipeDir && titleDB == map[]
    {
      this.recipeDir := recipeDir;
      titleDB := map[];
    }

    /** `parseRecipe(name, html)`: a record is entered under its key, replacing any earlier
        entry with that key; a page without a title, or one on which the build throws, leaves
        `titleDB` as it was. */
    method ParseRecipe(name: string, page: Page) returns (r: Result<Option<Recipe>>)
      modifies this
      ensures r == RecipeOf(RecipeKey(name, recipeDir), page)
      ensures r.Ok? && r.value.Some? ==>
        titleDB == old(titleDB)[RecipeKey(name, recipeDir) := EntryOf(r.value.value)]
      ensures !(r.Ok? && r.value.Some?) ==> titleDB == old(titleDB)
    {
      var url := RecipeKey(name, recipeDir);
      r := BuildRecipe(url, page);
      if r.Ok? && r.value.Some? {
        titleDB := titleDB[url := EntryOf(r.value.value)];
      }
    }
  }
}
