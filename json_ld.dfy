/** `extractJsonLdRecipe` of scraper/scrape.js: finds the schema.org `Recipe` object among
    the page's `application/ld+json` script blocks. The walk descends only into arrays and
    into an object's `@graph` property. */
module JsonLd {
  import opened Wrappers
  import opened JsonValue

  /** `obj['@type'] === 'Recipe'`, or `@type` is an array that includes the string `Recipe`. */
  predicate IsRecipe(j: Json) {
    var t := Get(j, "@type");
    t == JStr("Recipe") || (t.JArr? && JStr("Recipe") in t.items)
  }

  predicate AllRecipes(found: seq<Json>) {
    forall k :: 0 <= k < |found| ==> found[k].JObj? && IsRecipe(found[k])
  }

  /** The objects `walk` pushes into `found`, in push order: a falsy value yields nothing, an
      array yields what its elements yield in order, and any other value first yields what
      its truthy `@graph` yields and then itself if it is a Recipe. Every value found is an
      object whose `@type` names Recipe. */
  function Walk(j: Json): (found: seq<Json>)
    ensures AllRecipes(found)
    decreases j, 1
  {
    if !Truthy(j) then []
    else if j.JArr? then WalkAll(j.items)
    else
      var graph := Get(j, "@graph");
      (if Truthy(graph) then Walk(graph) else []) + (if IsRecipe(j) then [j] else [])
  }

  /** `obj.forEach(walk)`: the elements of an array are walked in order. */
  function WalkAll(items: seq<Json>): (found: seq<Json>)
    ensures AllRecipes(found)
    decreases items, 0
  {
    if items == [] then []
    else WalkAll(items[..|items| - 1]) + Walk(items[|items| - 1])
  }

  /** A script block holds a recipe: its text was non-empty and parsed, and the walk found
      at least one Recipe in it. */
  predicate HasRecipe(block: Option<Json>) {
    block.Some? && Walk(block.value) != []
  }

  /** The value `extractJsonLdRecipe` returns: the first Recipe found in the first block that
      holds one, or `null` when no block does. Blocks that are empty or do not parse
      (`None`) are skipped, and a block that parses but holds no Recipe is skipped too. */
  function FirstRecipe(blocks: seq<Option<Json>>): (r: Option<Json>)
    ensures r.None? <==> forall i :: 0 <= i < |blocks| ==> !HasRecipe(blocks[i])
    ensures r.Some? ==> r.value.JObj? && IsRecipe(r.value)
    ensures r.Some? ==> exists i :: 0 <= i < |blocks| && HasRecipe(blocks[i])
                          && (forall h :: 0 <= h < i ==> !HasRecipe(blocks[h]))
                          && r.value == Walk(blocks[i].value)[0]
  {
    if blocks == [] then None
    else if HasRecipe(blocks[0]) then Some(Walk(blocks[0].value)[0])
    else
      var r := FirstRecipe(blocks[1..]);
      assert forall i :: 1 <= i < |blocks| ==> blocks[i] == blocks[1..][i - 1];
      if r.Some? then
        var i :| 0 <= i < |blocks[1..]| && HasRecipe(blocks[1..][i])
                 && (forall h :: 0 <= h < i ==> !HasRecipe(blocks[1..][h]))
                 && r.value == Walk(blocks[1..][i].value)[0];
        assert HasRecipe(blocks[i + 1]);
        r
      else r
  }

  /** The loop of `extractJsonLdRecipe` over the script blocks, with its early return. */
  method ExtractJsonLdRecipe(blocks: seq<Option<Json>>) returns (r: Option<Json>)
    ensures r == FirstRecipe(blocks)
  {
    var i := 0;
    while i < |blocks|
      invariant 0 <= i <= |blocks|
      invariant forall h :: 0 <= h < i ==> !HasRecipe(blocks[h])
    {
      if blocks[i].Some? {
        var found := Walk(blocks[i].value);
        if |found| > 0 {
          r := Some(found[0]);
          FirstRecipeIsEarliest(blocks, i);
          return;
        }
      }
      i := i + 1;
    }
    r := None;
  }

  /** When the blocks before `i` hold no recipe and block `i` does, block `i` supplies it. */
  lemma {:induction false} FirstRecipeIsEarliest(blocks: seq<Option<Json>>, i: nat)
    requires i < |blocks| && HasRecipe(blocks[i])
    requires forall h :: 0 <= h < i ==> !HasRecipe(blocks[h])
    ensures FirstRecipe(blocks) == Some(Walk(blocks[i].value)[0])
  {
    if i > 0 {
      assert forall h :: 0 <= h < i - 1 ==> blocks[1..][h] == blocks[h + 1];
      FirstRecipeIsEarliest(blocks[1..], i - 1);
    }
  }

  /** The elements of an array are walked left to right: what two consecutive runs of
      elements yield is what each yields, in order. */
  lemma {:induction false} WalkAllAppend(a: seq<Json>, b: seq<Json>)
    ensures WalkAll(a + b) == WalkAll(a) + WalkAll(b)
    decreases |b|
  {
    if b != [] {
      var b' := b[..|b| - 1];
      assert (a + b)[..|a + b| - 1] == a + b';
      WalkAllAppend(a, b');
    } else {
      assert a + b == a;
    }
  }

  /** `@graph` is walked before the enclosing object is tested: when the graph holds a
      Recipe, the first one found comes from the graph even if the object is a Recipe too. */
  lemma GraphBeforeEnclosing(j: Json)
    requires j.JObj? && Walk(Get(j, "@graph")) != []
    ensures Walk(j)[0] == Walk(Get(j, "@graph"))[0]
    ensures IsRecipe(j) ==> Walk(j)[|Walk(j)| - 1] == j
  {
  }

  /** Only arrays and `@graph` are descended into: an object that has no truthy `@graph` and
      is not itself a Recipe yields nothing, whatever Recipes its other properties hold. */
  lemma OtherPropertiesIgnored(j: Json)
    requires j.JObj? && !Truthy(Get(j, "@graph")) && !IsRecipe(j)
    ensures Walk(j) == []
  {
  }

  /** Walking a Recipe object finds it: it is the last value its walk pushes, after
      whatever its `@graph` holds. */
  lemma RecipeObjectFound(j: Json)
    requires j.JObj? && IsRecipe(j)
    ensures Walk(j) != [] && Walk(j)[|Walk(j)| - 1] == j
  {
  }

  /** Each element of an array is walked in place: what the walk of the array finds is what
      the elements before it find, then what it finds, then what the elements after it
      find. So a Recipe anywhere in an array is found. */
  lemma ElementWalked(items: seq<Json>, i: nat)
    requires i < |items|
    ensures WalkAll(items) == WalkAll(items[..i]) + Walk(items[i]) + WalkAll(items[i + 1..])
  {
    var head := items[..i + 1];
    assert head + items[i + 1..] == items;
    WalkAllAppend(head, items[i + 1..]);
    assert head[..|head| - 1] == items[..i];
  }

  /** The object with `@type` set to `t`, whatever its other properties. */
  function WithType(o: map<string, Json>, t: Json): Json {
    JObj(o["@type" := t])
  }

  /** `@type` matches as the string `Recipe` or as an array holding that string at any
      position, whatever the object's other properties. Any other string, an array without
      it, any other kind of value and a missing `@type` do not match. */
  lemma RecipeTypeForms(o: map<string, Json>, t: string, v: Json, pre: seq<Json>, post: seq<Json>)
    ensures IsRecipe(WithType(o, JStr("Recipe")))
    ensures IsRecipe(WithType(o, JArr(pre + [JStr("Recipe")] + post)))
    ensures t != "Recipe" ==> !IsRecipe(WithType(o, JStr(t)))
    ensures JStr("Recipe") !in pre + post ==> !IsRecipe(WithType(o, JArr(pre + post)))
    ensures !v.JStr? && !v.JArr? ==> !IsRecipe(WithType(o, v))
    ensures !IsRecipe(JObj(o - {"@type"}))
  {
    assert (pre + [JStr("Recipe")] + post)[|pre|] == JStr("Recipe");
  }
}
