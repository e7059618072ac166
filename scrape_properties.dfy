/** What `parseRecipe` promises, stated over the field specifications of module `Scrape`:
    the precedence of structured data over markup, field by field, and what reaches the
    compact `titleDB` entry. */
module ScrapeProperties {
  import opened Wrappers
  import opened JsString
  import opened JsonValue
  import opened Duration
  import opened JsonLd
  import opened Scrape

  // ---------------------------------------------------------------------------
  // Title
  //
  // The lemmas about whole records are stated for any structured data `jsonLd`; the page's
  // own record is `RecipeOf(url, page) == RecipeFrom(url, FirstRecipe(page.scripts), page)`.

  /** The title is falsy exactly when there is no truthy structured `name` or `headline` and
      the heading holds nothing but white space. */
  lemma NoTitle(jsonLd: Option<Json>, heading: string)
    ensures !Truthy(TitleOf(jsonLd, heading)) <==>
      (jsonLd.None? || (!Truthy(Get(jsonLd.value, "name")) && !Truthy(Get(jsonLd.value, "headline"))))
      && AllSpace(heading)
  {
    var noStructured := jsonLd.None? || (!Truthy(Get(jsonLd.value, "name")) && !Truthy(Get(jsonLd.value, "headline")));
    assert !Truthy(TitleOf(jsonLd, heading)) <==> noStructured && Trim(heading) == [];
    assert Trim(heading) == [] <==> AllSpace(heading) by {
      TrimEmptyIff(heading);
    }
  }

  /** The page yields no record exactly when its title is falsy: with a title, the outcome
      is a record or a throw. */
  lemma NoTitleNoRecord(url: string, jsonLd: Option<Json>, page: Page)
    ensures RecipeFrom(url, jsonLd, page) == Ok(None) <==> !Truthy(TitleOf(jsonLd, page.heading))
  {
  }

  /** A structured title shuts the heading out: with a truthy structured `name` or
      `headline`, the page parses to the same outcome whatever its heading says. */
  lemma StructuredTitleWins(url: string, j: Json, page: Page, heading: string)
    requires Truthy(Get(j, "name")) || Truthy(Get(j, "headline"))
    ensures RecipeFrom(url, Some(j), page) == RecipeFrom(url, Some(j), page.(heading := heading))
  {
    var page' := page.(heading := heading);
    assert page'.methodItems == page.methodItems && page'.ingredientItems == page.ingredientItems;
    assert page'.servingText == page.servingText && page'.ogImage == page.ogImage;
    assert page'.vegetarianMarker == page.vegetarianMarker;
    assert page'.recommendationsText == page.recommendationsText;
    assert TitleOf(Some(j), page.heading) == TitleOf(Some(j), heading);
    TimesIgnoreHeading(Some(j), page, heading);
    assert ImageOf(Some(j), page) == ImageOf(Some(j), page') by {
      assert ImageCandidate(Some(j), page) == ImageCandidate(Some(j), page');
    }
    assert ServesOf(Some(j), page) == ServesOf(Some(j), page');
  }

  /** With a truthy structured `name` or `headline` the page never lacks a record, and its
      title is `name` when truthy, else `headline`. */
  lemma StructuredTitle(url: string, j: Json, page: Page)
    requires Truthy(Get(j, "name")) || Truthy(Get(j, "headline"))
    ensures RecipeFrom(url, Some(j), page).Ok? ==>
      && RecipeFrom(url, Some(j), page).value.Some?
      && RecipeFrom(url, Some(j), page).value.value.title ==
           (if Truthy(Get(j, "name")) then Get(j, "name") else Get(j, "headline"))
  {
  }

  /** Structured data without a truthy `name` or `headline` leaves the title to the
      trimmed heading text, as it is on a page without structured data. */
  lemma TitleFallsBack(url: string, j: Json, page: Page)
    requires !Truthy(Get(j, "name")) && !Truthy(Get(j, "headline"))
    ensures TitleOf(Some(j), page.heading) == JStr(Trim(page.heading))
    ensures RecipeFrom(url, Some(j), page).Ok? && RecipeFrom(url, Some(j), page).value.Some? ==>
      RecipeFrom(url, Some(j), page).value.value.title == JStr(Trim(page.heading))
  {
  }

  /** The times do not read the heading. */
  lemma TimesIgnoreHeading(jsonLd: Option<Json>, page: Page, heading: string)
    ensures TimesOf(jsonLd, page) == TimesOf(jsonLd, page.(heading := heading))
  {
    var page' := page.(heading := heading);
    var start := if jsonLd.Some? then StructuredTimes(jsonLd.value) else Ok(Times(JNull, 0, JNull, 0, 0));
    if start.Ok? {
      var t := start.value;
      assert MarkupTimes(t, page) == MarkupTimes(t, page') by {
        assert page.prepTimeContent == page'.prepTimeContent && page.cookTimeContent == page'.cookTimeContent;
        assert page.prepTimeText == page'.prepTimeText && page.cookTimeText == page'.cookTimeText;
      }
    }
  }

  // ---------------------------------------------------------------------------
  // Ingredients and method

  /** The entry's `l` is the length of the structured `recipeIngredient` array when it is a
      non-empty array, and the number of markup ingredient items otherwise. */
  lemma IngredientCount(url: string, jsonLd: Option<Json>, page: Page)
    requires RecipeFrom(url, jsonLd, page).Ok? && RecipeFrom(url, jsonLd, page).value.Some?
    ensures var xs := StructuredList(jsonLd, "recipeIngredient");
      EntryOf(RecipeFrom(url, jsonLd, page).value.value)["l"] ==
        JNum((if xs.Some? then |xs.value| else |page.ingredientItems|) as real)
  {
    var r := RecipeFrom(url, jsonLd, page).value.value;
    assert r.ingredients == IngredientsOf(jsonLd, page.ingredientItems);
  }

  /** Structured ingredients come out trimmed; markup ingredients that were cut hold no line
      break. */
  lemma IngredientsClean(jsonLd: Option<Json>, items: seq<string>, k: nat)
    requires k < |IngredientsOf(jsonLd, items)|
    ensures StructuredList(jsonLd, "recipeIngredient").Some? ==> Trimmed(IngredientsOf(jsonLd, items)[k])
    ensures StructuredList(jsonLd, "recipeIngredient").None? && IngredientsOf(jsonLd, items)[k] != items[k] ==>
      '\n' !in IngredientsOf(jsonLd, items)[k]
  {
  }

  /** The sub-steps of a nested array come out trimmed. */
  lemma {:induction false} SubStepsTrimmed(subs: seq<Json>)
    requires SubSteps(subs).Ok?
    ensures forall k :: 0 <= k < |SubSteps(subs).value| ==> Trimmed(SubSteps(subs).value[k])
  {
    if subs != [] {
      SubStepsSnoc(subs);
      SubStepsTrimmed(subs[..|subs| - 1]);
    }
  }

  /** Every structured step comes out trimmed, whichever shape supplied it. */
  lemma {:induction false} StepsTrimmed(items: seq<Json>)
    requires Steps(items).Ok?
    ensures forall k :: 0 <= k < |Steps(items).value| ==> Trimmed(Steps(items).value[k])
  {
    if items != [] {
      var last := items[|items| - 1];
      StepsTrimmed(items[..|items| - 1]);
      if Truthy(last) && !last.JStr? && !Truthy(Get(last, "text")) && last.JArr? {
        SubStepsTrimmed(last.items);
      }
    }
  }

  /** The last element's steps extend the steps of the elements before it. */
  lemma StepsSnoc(items: seq<Json>)
    requires items != []
    ensures var init := Steps(items[..|items| - 1]);
      Steps(items) == if init.Ok? then Extend(init.value, ItemSteps(items[|items| - 1])) else Throws
  {
  }

  /** Steps are flattened in order: the steps of two consecutive runs of elements are the
      steps of the first followed by the steps of the second, and a throw in either run is a
      throw of the whole. */
  lemma {:induction false} StepsAppend(a: seq<Json>, b: seq<Json>)
    ensures Steps(a + b) == if Steps(a).Ok? then Extend(Steps(a).value, Steps(b)) else Throws
    decreases |b|
  {
    if b == [] {
      assert a + b == a;
      if Steps(a).Ok? {
        assert Steps(a).value + [] == Steps(a).value;
      }
    } else {
      var b', last := b[..|b| - 1], b[|b| - 1];
      var ab := a + b;
      assert ab[..|ab| - 1] == a + b' && ab[|ab| - 1] == last;
      StepsAppend(a, b');
      StepsSnoc(ab);
      StepsSnoc(b);
      var sa, sb', sl := Steps(a), Steps(b'), ItemSteps(last);
      if sa.Ok? && sb'.Ok? && sl.Ok? {
        var x, y, z := sa.value, sb'.value, sl.value;
        assert Steps(a + b') == Ok(x + y);
        assert Steps(b) == Ok(y + z);
        assert x + y + z == x + (y + z);
      }
    }
  }

  /** Null (and every other falsy) element is skipped without effect. */
  lemma FalsyStepSkipped(a: seq<Json>, item: Json, b: seq<Json>)
    requires !Truthy(item)
    ensures Steps(a + [item] + b) == Steps(a + b)
  {
    StepsAppend(a + [item], b);
    StepsAppend(a, [item]);
    StepsAppend(a, b);
    assert [item][..0] == [];
    if Steps(a).Ok? {
      assert Steps(a).value + [] == Steps(a).value;
    }
  }

  /** The shapes of `recipeInstructions` elements. A string gives its trimmed self. An
      object with a truthy `text` gives that text trimmed when it is a string and throws
      when it is not, whatever its other properties (such as `"@type": "HowToStep"`). An
      object without a truthy `text`, a `HowToStep` among them, contributes nothing. */
  lemma StepShapes(s: string, o: map<string, Json>)
    ensures ItemSteps(JStr(s)) == if s == "" then Ok([]) else Ok([Trim(s)])
    ensures "text" in o && o["text"].JStr? && o["text"].s != "" ==>
      ItemSteps(JObj(o)) == Ok([Trim(o["text"].s)])
    ensures "text" in o && Truthy(o["text"]) && !o["text"].JStr? ==> ItemSteps(JObj(o)) == Throws
    ensures "text" !in o || !Truthy(o["text"]) ==> ItemSteps(JObj(o)) == Ok([])
  {
  }

  /** An element with a truthy `text` property: what the inner `forEach` pushes for. */
  predicate HasText(sub: Json) {
    Truthy(sub) && Truthy(Get(sub, "text"))
  }

  /** One element of a nested array: its trimmed `text` when it has a truthy one that is a
      string, a throw when that `text` is not a string, and nothing otherwise. */
  lemma SubStepShape(sub: Json)
    ensures SubSteps([sub]) ==
      if !HasText(sub) then Ok([])
      else if Get(sub, "text").JStr? then Ok([Trim(Get(sub, "text").s)])
      else Throws
  {
    assert [sub][..0] == [];
    if HasText(sub) && Get(sub, "text").JStr? {
      var t := Trim(Get(sub, "text").s);
      assert [] + [t] == [t];
    }
  }

  /** Sub-steps are flattened in order: the sub-steps of two consecutive runs of elements
      are those of the first followed by those of the second, and a throw in either run is
      a throw of the whole. */
  lemma {:induction false} SubStepsAppend(a: seq<Json>, b: seq<Json>)
    ensures SubSteps(a + b) == if SubSteps(a).Ok? then Extend(SubSteps(a).value, SubSteps(b)) else Throws
    decreases |b|
  {
    if b == [] {
      assert a + b == a;
      if SubSteps(a).Ok? {
        assert SubSteps(a).value + [] == SubSteps(a).value;
      }
    } else {
      var b', last := b[..|b| - 1], b[|b| - 1];
      var ab := a + b;
      assert ab[..|ab| - 1] == a + b' && ab[|ab| - 1] == last;
      SubStepsAppend(a, b');
      SubStepsSnoc(ab);
      SubStepsSnoc(b);
      var sa, sb' := SubSteps(a), SubSteps(b');
      if sa.Ok? && sb'.Ok? && HasText(last) && Get(last, "text").JStr? {
        var x, y, z := sa.value, sb'.value, Trim(Get(last, "text").s);
        assert SubSteps(a + b') == Ok(x + y);
        assert SubSteps(b) == Ok(y + [z]);
        assert x + y + [z] == x + (y + [z]);
      }
    }
  }

  /** A nested array contributes its sub-steps, and they throw exactly when some element
      has a truthy `text` that is not a string. */
  lemma {:induction false} NestedStepShape(subs: seq<Json>)
    ensures ItemSteps(JArr(subs)) == SubSteps(subs)
    ensures SubSteps(subs).Ok? <==>
      forall k :: 0 <= k < |subs| && HasText(subs[k]) ==> Get(subs[k], "text").JStr?
  {
    if subs != [] {
      var init := subs[..|subs| - 1];
      NestedStepShape(init);
      SubStepsSnoc(subs);
      assert forall k :: 0 <= k < |init| ==> init[k] == subs[k];
    }
  }

  /** For instance, null elements and bare strings inside a nested array are skipped. */
  lemma NestedStepExample(s: string, u: string)
    requires u != ""
    ensures ItemSteps(JArr([JNull, JStr(s), JObj(map["text" := JStr(u)])])) == Ok([Trim(u)])
  {
    var step := JObj(map["text" := JStr(u)]);
    SubStepShape(JNull);
    SubStepShape(JStr(s));
    SubStepShape(step);
    SubStepsAppend([JNull], [JStr(s)]);
    SubStepsAppend([JNull, JStr(s)], [step]);
    assert [JNull] + [JStr(s)] == [JNull, JStr(s)];
    assert [JNull, JStr(s)] + [step] == [JNull, JStr(s), step];
  }

  // ---------------------------------------------------------------------------
  // Times

  /** A truthy parsed `totalTime` settles the times: the markup is not read at all. */
  lemma StructuredTotalWins(j: Json, page: Page)
    requires StructuredTimes(j).Ok?
    requires ParseTime(Get(j, "totalTime")) == Ok(Mins(StructuredTimes(j).value.totalMins))
    requires StructuredTimes(j).value.totalMins != 0
    ensures TimesOf(Some(j), page) == StructuredTimes(j)
  {
  }

  /** With structured data and no truthy `totalTime`, the total is prep plus cook, each 0
      when its duration is falsy. */
  lemma StructuredTotalIsSum(j: Json)
    requires StructuredTimes(j).Ok? && !TruthyTime(ParseTime(Get(j, "totalTime")).value)
    ensures var t := StructuredTimes(j).value;
      t.totalMins == t.preparationMins + t.cookingMins
      && t.preparationMins == OrZero(ParseTime(PrepSource(j)).value)
      && t.cookingMins == OrZero(ParseTime(Get(j, "cookTime")).value)
  {
  }

  /** When the total is still 0 after the structured block, the markup fills in only the
      minute fields that are 0, from the `content` attributes, and the total becomes prep
      plus cook; minute fields the structured data set are kept. */
  lemma MarkupFillsOnlyZero(jsonLd: Option<Json>, page: Page)
    requires TimesOf(jsonLd, page).Ok?
    requires jsonLd.None? || StructuredTimes(jsonLd.value).value.totalMins == 0
    ensures var before := if jsonLd.Some? then StructuredTimes(jsonLd.value).value else Times(JNull, 0, JNull, 0, 0);
      var t := TimesOf(jsonLd, page).value;
      && t.totalMins == t.preparationMins + t.cookingMins
      && (before.preparationMins != 0 ==> t.preparationMins == before.preparationMins)
      && (before.cookingMins != 0 ==> t.cookingMins == before.cookingMins)
      && (before.preparationMins == 0 ==> t.preparationMins == OrZero(ParseTime(Attr(page.prepTimeContent)).value))
      && (before.cookingMins == 0 ==> t.cookingMins == OrZero(ParseTime(Attr(page.cookTimeContent)).value))
  {
  }

  /** Whatever path was taken, the total is either a truthy parsed `totalTime` or the sum of
      the prep and cook minutes. */
  lemma TotalIsParsedOrSum(jsonLd: Option<Json>, page: Page)
    requires TimesOf(jsonLd, page).Ok?
    ensures var t := TimesOf(jsonLd, page).value;
      t.totalMins == t.preparationMins + t.cookingMins
      || (jsonLd.Some? && ParseTime(Get(jsonLd.value, "totalTime")) == Ok(Mins(t.totalMins)) && t.totalMins != 0)
  {
  }

  // ---------------------------------------------------------------------------
  // Servings

  /** With structured data, servings are a truthy `recipeYield`, else a truthy `yield`,
      else the markup text; the recorded `serves` is that value. */
  lemma StructuredServesWin(url: string, j: Json, page: Page)
    ensures ServesOf(Some(j), page) ==
      if Truthy(Get(j, "recipeYield")) then Get(j, "recipeYield")
      else if Truthy(Get(j, "yield")) then Get(j, "yield")
      else JStr(page.servingText)
    ensures RecipeFrom(url, Some(j), page).Ok? && RecipeFrom(url, Some(j), page).value.Some? ==>
      RecipeFrom(url, Some(j), page).value.value.serves == ServesOf(Some(j), page)
  {
  }

  // ---------------------------------------------------------------------------
  // Image

  /** `og:image` is read only when the structured `image` is falsy: with a truthy one, the
      meta tag does not matter, even when the structured value yields no usable image. */
  lemma OgImageOnlyWithoutStructuredImage(jsonLd: Option<Json>, page: Page, og: Option<string>)
    requires jsonLd.Some? && Truthy(Get(jsonLd.value, "image"))
    ensures ImageOf(jsonLd, page) == ImageOf(jsonLd, page.(ogImage := og))
  {
  }

  /** A truthy structured `image` that is neither a string, nor a non-empty array, nor has a
      truthy `url` yields no image, and the `og:image` tag is not consulted. */
  lemma UnusableStructuredImage(j: Json, page: Page)
    requires var image := Get(j, "image");
      Truthy(image) && !image.JStr? && !(image.JArr? && image.items != []) && !Truthy(Get(image, "url"))
    ensures ImageOf(Some(j), page) == Ok(JNull)
  {
  }

  /** Without a truthy structured `image`, the `og:image` URL is the image unless it names
      the placeholder. */
  lemma OgImageFallback(jsonLd: Option<Json>, page: Page, u: string)
    requires jsonLd.None? || !Truthy(Get(jsonLd.value, "image"))
    requires page.ogImage == Some(u)
    ensures ImageOf(jsonLd, page) == Ok(if Contains(u, Placeholder) then JNull else JStr(u))
  {
  }

  /** No parsed record keeps the placeholder: a string image does not contain its name and an
      array image does not hold it as an element. */
  lemma NoPlaceholderImage(url: string, jsonLd: Option<Json>, page: Page)
    requires RecipeFrom(url, jsonLd, page).Ok? && RecipeFrom(url, jsonLd, page).value.Some?
    ensures var image := RecipeFrom(url, jsonLd, page).value.value.image;
      (image.JStr? ==> !Contains(image.s, Placeholder))
      && (image.JArr? ==> JStr(Placeholder) !in image.items)
  {
    var image := ImageCandidate(jsonLd, page);
    var kept := DropPlaceholder(image).value;
    assert RecipeFrom(url, jsonLd, page).value.value.image == kept;
    assert kept == image || kept == JNull;
  }

  // ---------------------------------------------------------------------------
  // Markup-only pages and the key

  /** Only structured data can make the build throw: a page with no JSON-LD Recipe always
      yields a record, or none when its heading is blank. */
  lemma MarkupOnlyPageNeverThrows(url: string, page: Page)
    ensures RecipeFrom(url, None, page).Ok?
    ensures RecipeFrom(url, None, page).value.Some? <==> !AllSpace(page.heading)
  {
    assert RecipeFrom(url, None, page).Ok? by {
      assert MethodOf(None, page.methodItems).Ok?;
      assert TimesOf(None, page).Ok?;
      assert ImageOf(None, page).Ok? by {
        assert ImageCandidate(None, page) == Attr(page.ogImage);
      }
    }
    assert RecipeFrom(url, None, page).value.Some? <==> Truthy(TitleOf(None, page.heading)) by {
      NoTitleNoRecord(url, None, page);
    }
    assert Truthy(TitleOf(None, page.heading)) <==> !AllSpace(page.heading) by {
      NoTitle(None, page.heading);
    }
  }

  /** On a page with no JSON-LD Recipe every field comes from the markup: the trimmed
      heading, one ingredient per item, the method items as they are, the serving text, and
      times from the markup alone, whose total is prep plus cook. */
  lemma MarkupOnlyPageFields(url: string, page: Page)
    requires RecipeFrom(url, None, page).Ok? && RecipeFrom(url, None, page).value.Some?
    ensures var r := RecipeFrom(url, None, page).value.value;
      && r.title == JStr(Trim(page.heading))
      && |r.ingredients| == |page.ingredientItems|
      && (forall k :: 0 <= k < |r.ingredients| ==> r.ingredients[k] == CutAtNewline(page.ingredientItems[k]))
      && r.steps == page.methodItems
      && r.serves == JStr(page.servingText)
      && r.time == MarkupTimes(Times(JNull, 0, JNull, 0, 0), page)
      && r.time.totalMins == r.time.preparationMins + r.time.cookingMins
  {
    assert MethodOf(None, page.methodItems) == Ok(page.methodItems);
    assert TimesOf(None, page) == Ok(MarkupTimes(Times(JNull, 0, JNull, 0, 0), page));
  }

  /** On a page with no JSON-LD Recipe the image is the `og:image` URL unless it names the
      placeholder, and the vegetarian flag and the recommendations come from the markup. */
  lemma MarkupOnlyPageImage(url: string, page: Page)
    requires RecipeFrom(url, None, page).Ok? && RecipeFrom(url, None, page).value.Some?
    ensures var r := RecipeFrom(url, None, page).value.value;
      && r.image == (if page.ogImage.Some? && !Contains(page.ogImage.value, Placeholder)
                     then JStr(page.ogImage.value) else JNull)
      && r.isVegetarian == page.vegetarianMarker
      && r.recommendations == IntOrZero(ParseInt(page.recommendationsText))
  {
    assert ImageCandidate(None, page) == Attr(page.ogImage);
  }

  /** A usable structured image is chosen: a non-empty string that does not name the
      placeholder, given as `image` itself, as its first element, or as its `url`. */
  lemma StructuredImageChosen(j: Json, page: Page, u: string)
    requires u != "" && !Contains(u, Placeholder)
    requires var image := Get(j, "image");
      || image == JStr(u)
      || (image.JArr? && image.items != [] && image.items[0] == JStr(u))
      || (image.JObj? && Get(image, "url") == JStr(u))
    ensures ImageOf(Some(j), page) == Ok(JStr(u))
  {
  }

  /** The chosen image reaches the record, and the entry then carries `i`. */
  lemma ImageRecorded(url: string, jsonLd: Option<Json>, page: Page, u: string)
    requires u != "" && ImageOf(jsonLd, page) == Ok(JStr(u))
    requires RecipeFrom(url, jsonLd, page).Ok? && RecipeFrom(url, jsonLd, page).value.Some?
    ensures var r := RecipeFrom(url, jsonLd, page).value.value;
      r.image == JStr(u) && "i" in EntryOf(r) && EntryOf(r)["i"] == JNum(1.0)
  {
  }

  /** The key of a page read from `recipeDir` is its file name without the five-character
      `.html` extension. */
  lemma KeyOfFile(recipeDir: string, file: string)
    requires |file| >= 5
    ensures RecipeKey(recipeDir + "/" + file, recipeDir) == file[..|file| - 5]
  {
    var name := recipeDir + "/" + file;
    assert name[|recipeDir| + 1..] == file;
  }
}
