# auntiesrecipes: a Dafny model of the recipe scraper and the page downloader

auntiesrecipes harvests the BBC Food recipe pages. It has two programs, and this project
models the logic at their core.

- **The downloader** reads the site map. It collects the text of every `<loc>` element
  (the `Parser.parse` state machine), trims the URLs and keeps the `http:`/`https:` ones.
  Each URL becomes a download task that names the local file the page is saved to
  (`getOutfile`).
- **The scraper** turns one saved page into a recipe record (`parseRecipe`). It first
  looks for the schema.org `Recipe` object in the page's JSON-LD blocks
  (`extractJsonLdRecipe`). Then it resolves every field: structured data first, page
  markup second. Cooking durations are parsed by `parseTime`. Finally it writes the
  compact entry for the page into the shared `titleDB` map.

Modules and files:

| file | module | what it holds |
|---|---|---|
| `wrappers.dfy` | `Wrappers` | `Option`, and `Result` with `Throws` for a JavaScript exception |
| `js_string.dfy` | `JsString` | `trim`, `indexOf`, `lastIndexOf('//')`, `substring`, `parseInt` |
| `json.dfy` | `JsonValue` | parsed JSON values, truthiness, property access, `\|\|` |
| `duration.dfy` | `Duration` | `parseTime` |
| `json_ld.dfy` | `JsonLd` | `walk` and `extractJsonLdRecipe` |
| `scrape.dfy` | `Scrape` | the field specifications, the step-by-step build of `parseRecipe`, the `titleDB` entry, and the `Scraper` class that owns `titleDB` |
| `scrape_properties.dfy` | `ScrapeProperties` | what `parseRecipe` promises, field by field |
| `downloader.dfy` | `Downloader` | `getOutfile` and the URL → task pipeline |
| `sitemap.dfy` | `Sitemap` | the `<loc>` collector |

How the JavaScript is modelled:

- **Exceptions.** A `TypeError` is `Result.Throws`. This happens when `.substring` or
  `.trim` is called on a truthy value that is not a string, or `.indexOf` on a truthy
  value that is neither a string nor an array (arrays have their own `indexOf`). The run loop
  catches the throw per file (scraper/scrape.js:218-219), so the page gets no entry.
  `Scraper.ParseRecipe` states this: a throw leaves `titleDB` as it was.
- **Missing properties.** A missing property reads as `JNull`. `undefined` and `null`
  behave the same under `||`, truthiness and the `typeof` tests the scraper makes.
- **Pages.** A page is the record of what the selectors read from it (`Scrape.Page`). A
  JSON-LD block whose text is empty, or that `JSON.parse` rejects, is `None`.
- **The site map.** It enters the parser as the sequence of tokeniser callbacks
  (`Sitemap.Event`).
- **URL parsing.** `new URL(url).protocol` is a function parameter `protocolOf`, with
  `None` when the constructor throws.

`parseRecipe` exists twice. `Scrape.RecipeFrom` is a specification function: it composes
the per-field functions for given structured data. `Scrape.BuildFrom` and the methods it
calls build the same record step by step, with the source's loops and early exits, and
are proved equal to it. `RecipeOf(url, page)` is
`RecipeFrom(url, FirstRecipe(page.scripts), page)`. The whole-record lemmas are stated
over `RecipeFrom`, for any structured data.

Some behaviours of the code differ from what a reader might expect. The model follows
the code in each case:

- **File names collide.** One might expect each URL to get its own local file name.
  `getOutfile` maps both `.` and `/` to `_`, so `http://a.b` and `http://a/b` share
  `a_b.html` (`Downloader.OutfileCollision`).
- **No `//` in the URL.** One might expect only the scheme to be stripped. The code cuts
  after the last `//`, so a URL without `//` loses its first character
  (`Downloader.NoSchemeDropsFirstCharacter`).
- **The parser never reports an error.** One might expect a malformed site map to be
  reported. `Parser.parse` always calls `done(null, items)` (`Sitemap.Parse`).
- **Combined durations.** One might expect `PT1H15M` to be 75 minutes. The code reads
  such durations as the hours figure, unscaled, so `PT1H15M` is 1 minute
  (`Duration.OneHourFifteen`).
- **No deduplication.** The downloader keeps duplicate URLs, and a site map listed twice
  yields every task twice (`Downloader.NoDeduplication`).
- **`parseInt` is the full JavaScript one.** It skips leading white space, reads one
  sign, and reads `0x` as hexadecimal. It is not a decimal-prefix reader.
- **A dead `HowToStep` branch.** The `HowToStep` branch of the method flattening
  (scraper/scrape.js:130) needs a truthy `text`. The branch before it already takes
  every such value, so it never contributes anything (`ScrapeProperties.StepShapes`).

Definitions. The following members define the model. Their properties are stated by
the lemmas and methods named after each, which have rows in the table below.

- `JsString.SubstringFrom` and `JsString.SubstringTo`: `substring` with JavaScript's
  clamping (scraper/scrape.js:64, 76-77). See `Scrape.RecipeKey`, `Duration.ParseTime`
  and `Downloader.AfterLastSlashes`.
- `JsString.ParseInt`: the global `parseInt` (scraper/scrape.js:65-66, 166). See
  `ParseIntNumeral`, `ParseIntDecimal`, `ParseIntUnsigned` and `ParseIntNoDigits`.
- `Duration.TextDuration`: `parseTime` on a non-empty string (scraper/scrape.js:64-67), a
  helper for the duration lemmas. See `NoUnitIsNull`, `MinutesDuration`, `HoursDuration`
  and `HoursAndMinutesDuration`.
- `JsString.Contains` and `OccursAt`: `indexOf(sub) > -1` on a string
  (scraper/scrape.js:164). See `ContainsAt` and `Scrape.DropPlaceholder`.
- `Scrape.TitleOf`: the title (scraper/scrape.js:107-108). See `NoTitle`,
  `NoTitleNoRecord`, `StructuredTitleWins`, `StructuredTitle` and `TitleFallsBack`.
- `Scrape.StructuredList`: the non-empty-array test (scraper/scrape.js:111, 123). See
  `IngredientsOf` and `CollectMethod`.
- `Scrape.TextStep`, `SubSteps`, `ItemSteps`, `Steps`, `MethodOf`, `Extend`,
  `SubStepsSnoc` and `StepsSnoc`: the method list (scraper/scrape.js:123-136). See
  `CollectMethod`, `PushItemSteps`, `PushSubSteps`, `StepsAppend`, `StepsTrimmed`,
  `SubStepsTrimmed`, `FalsyStepSkipped`, `StepShapes`, `SubStepShape`, `SubStepsAppend`,
  `NestedStepShape` and the `ThrowsOnward` lemmas. `HasText` is the test of the inner
  `forEach` (scraper/scrape.js:129).
- `Scrape.PrepSource`, `StructuredTimes`, `MarkupTimes` and `TimesOf`: the times
  (scraper/scrape.js:139-153). See `ReconcileTimes`, `StructuredTotalWins`,
  `StructuredTotalIsSum`, `MarkupFillsOnlyZero`, `TotalIsParsedOrSum` and
  `TimesIgnoreHeading`.
- `Scrape.ServesOf`: servings (scraper/scrape.js:156). See `StructuredServesWin` and
  `MarkupOnlyPageFields`.
- `Scrape.ImageCandidate` and `ImageOf`: the image (scraper/scrape.js:157-164). See
  `DropPlaceholder`, `StructuredImageChosen`, `UnusableStructuredImage`,
  `OgImageOnlyWithoutStructuredImage`, `OgImageFallback`, `NoPlaceholderImage` and
  `MarkupOnlyPageImage`.
- `Scrape.IntOrZero`: `parseInt(...) || 0` for the recommendations
  (scraper/scrape.js:166). See `MarkupOnlyPageImage`.
- `Scrape.RecipeFrom` and `RecipeOf`: the whole record (scraper/scrape.js:74-166). See
  `BuildRecipe`, `BuildFrom`, `Scraper.ParseRecipe` and the `ScrapeProperties` lemmas.
- `Downloader.TaskFor`: one string through the filters (downloader/index.js:60-70). See
  `TasksOfSource`, `TasksOfSurvivors`, `TaskSource`, `SurvivorsHaveTasks` and
  `TasksWellFormed`.
- `Sitemap.InLoc`, `Pushed` and `Collected`: the flag and the items
  (downloader/parser.js:13-30). See `Parse`, `InLocMeaning` and the lemmas after it.

## Model

| member | source | states |
|---|---|---|
| JsString.Trim | scraper/scrape.js:107 | `trim` leaves no white space at either end and never lengthens the string |
| JsString.TrimStartRemovesSpace | scraper/scrape.js:107 | what `trim` removes at the start is white space only |
| JsString.TrimEndRemovesSpace | scraper/scrape.js:107 | what `trim` removes at the end is white space only |
| JsString.TrimEmptyIff | scraper/scrape.js:107-108 | a trimmed string is empty exactly when the input is all white space |
| JsString.TrimIdempotent | downloader/index.js:59 | trimming an already trimmed string (such as a collected `<loc>` text) changes nothing |
| JsString.IndexOfChar | scraper/scrape.js:116 | `indexOf` is the first position of the character, and -1 exactly when the character is absent |
| JsString.LastIndexOfSlashes | downloader/index.js:26 | `lastIndexOf('//')` is -1 or a position where `//` starts, with no `//` starting later |
| JsString.DigitPrefix | scraper/scrape.js:166 | `parseInt` reads the longest run of digits, stopping at the first non-digit |
| JsString.ReadDigits | scraper/scrape.js:166 | the numeral is NaN exactly when there is no digit to read |
| JsString.ParseIntNumeral | scraper/scrape.js:65 | a run of decimal digits, followed by text that starts with neither a digit nor `x`/`X`, is read as the number it denotes |
| JsString.ParseIntDecimal | scraper/scrape.js:65 | `parseInt` reads back the decimal numeral of `n`, followed by any text that starts with neither a digit nor `x`/`X` |
| JsString.ParseIntUnsigned | scraper/scrape.js:166 | a string that starts with a digit is read as an unsigned numeral |
| JsString.ParseIntNoDigits | scraper/scrape.js:166 | a string with no decimal digit parses to NaN |
| JsString.ContainsAt | scraper/scrape.js:164 | `indexOf(sub) > -1` holds exactly when some window of the string, of the length of `sub`, equals `sub` |
| JsonValue.Get | scraper/scrape.js:92 | a property access on an object that has the key yields the key's value; on anything else it yields `null`/`undefined` |
| JsonValue.Or | scraper/scrape.js:107 | `a \|\| b` is `a` when `a` is truthy and `b` otherwise, so it is truthy exactly when one operand is |
| JsonValue.Attr | scraper/scrape.js:149 | the attribute value is truthy exactly when the attribute is present and not empty (what the falsy tests in `parseTime` and of the image rely on); a present attribute is its string, an absent one `undefined` |
| Duration.OrZero | scraper/scrape.js:142 | `parseTime(x) \|\| 0` is non-zero exactly when the time is truthy, and is then the time |
| Duration.ParseTime | scraper/scrape.js:62-68 | a falsy time gives `null`; only a truthy non-string throws |
| Duration.NoUnitIsNull | scraper/scrape.js:67 | with neither `M` nor `H` after the first two characters, the result is `null` |
| Duration.MinutesDuration | scraper/scrape.js:65 | `PT<m>M` gives `m` minutes, whatever the two leading characters are |
| Duration.HoursDuration | scraper/scrape.js:66 | `PT<h>H` gives `h * 60` minutes |
| Duration.HoursAndMinutesDuration | scraper/scrape.js:65 | `PT<h>H<m>M` gives `h`, the hours figure unscaled |
| Duration.ThirtyMinutes | scraper/scrape.js:60 | `PT30M` gives 30 |
| Duration.TwoHours | scraper/scrape.js:60 | `PT2H` gives 120 |
| Duration.OneHourFifteen | scraper/scrape.js:64-65 | `PT1H15M` gives 1 |
| JsonLd.Walk | scraper/scrape.js:89-94 | every value the walk pushes is an object whose `@type` names Recipe |
| JsonLd.RecipeObjectFound | scraper/scrape.js:92-93 | a Recipe object is found by its walk, as the last value pushed |
| JsonLd.ElementWalked | scraper/scrape.js:91 | each array element's finds sit in place within the array's finds, so a Recipe anywhere in an array is found |
| JsonLd.WalkAll | scraper/scrape.js:91 | the walk of an array's elements pushes only Recipe objects |
| JsonLd.FirstRecipe | scraper/scrape.js:81-102 | `null` exactly when no block holds a Recipe; otherwise the first Recipe found in the earliest block that holds one |
| JsonLd.ExtractJsonLdRecipe | scraper/scrape.js:83-101 | the loop over the blocks, with its early return, yields `FirstRecipe` |
| JsonLd.FirstRecipeIsEarliest | scraper/scrape.js:96 | when the blocks before `i` hold no Recipe and block `i` does, block `i` supplies the result |
| JsonLd.WalkAllAppend | scraper/scrape.js:91 | array elements are walked left to right: the finds of two runs are concatenated in order |
| JsonLd.GraphBeforeEnclosing | scraper/scrape.js:92-93 | `@graph` is walked before the enclosing object is tested, so a Recipe in the graph comes first |
| JsonLd.OtherPropertiesIgnored | scraper/scrape.js:89-94 | an object with no truthy `@graph` that is not a Recipe yields nothing, whatever its other properties hold |
| JsonLd.RecipeTypeForms | scraper/scrape.js:93 | `@type` matches as the string `Recipe` or as an array holding it at any position; another string, an array without it, any other kind of value and a missing `@type` do not match |
| Scrape.CutAtNewline | scraper/scrape.js:115-118 | an item is cut before its first line break exactly when that break exists and is not the first character |
| Scrape.IngredientOf | scraper/scrape.js:112 | a string ingredient is that string trimmed, and any other value is `""` |
| Scrape.IngredientsOf | scraper/scrape.js:111-120 | one ingredient per structured element, or else one per markup item, in order |
| Scrape.DropPlaceholder | scraper/scrape.js:164 | a string containing the placeholder name or an array holding it is deleted; a falsy value, a string without the name and an array without it are kept; any other truthy value throws |
| Scrape.EntryOf | scraper/scrape.js:168-175 | the entry has `t` and `l` always, `i`/`v` as 1 when set, `p`/`c`/`r` when non-zero, and no other key |
| Scrape.RecipeKey | scraper/scrape.js:76-77 | the key drops `\|recipeDir\| + 1` leading and 5 trailing characters, clamped as `substring` clamps |
| Scrape.CollectIngredients | scraper/scrape.js:111-120 | the `map` or the push loop over the markup items builds `IngredientsOf` |
| Scrape.PushSubSteps | scraper/scrape.js:129 | the inner `forEach` pushes the trimmed `text` of each sub-step that has one, or throws |
| Scrape.PushItemSteps | scraper/scrape.js:126-130 | one instruction element pushes its steps (string, `text`, or nested array), or throws |
| Scrape.CollectMethod | scraper/scrape.js:123-136 | the `forEach` over the instructions, stopping at the first throw, or the markup push loop, builds `MethodOf` |
| Scrape.SubStepsThrowsOnward | scraper/scrape.js:129 | once a sub-step throws, the whole nested array throws |
| Scrape.StepsThrowsOnward | scraper/scrape.js:125-131 | once an instruction throws, the whole method list throws |
| Scrape.ReconcileTimes | scraper/scrape.js:139-153 | the structured block, then the markup block when the total is still 0, sets `TimesOf` |
| Scrape.BuildRecipe | scraper/scrape.js:74-166 | the step-by-step build of a page is the record `RecipeOf` specifies |
| Scrape.BuildFrom | scraper/scrape.js:106-166 | with the structured data known, the build yields no record for a falsy title, a throw, or the record |
| Scrape.Scraper.constructor | scraper/scrape.js:70 | `titleDB` starts empty |
| Scrape.Scraper.ParseRecipe | scraper/scrape.js:74-179 | a record is written into `titleDB` under its key, replacing any earlier entry; no title or a throw leaves `titleDB` unchanged |
| ScrapeProperties.NoTitle | scraper/scrape.js:107 | the title is falsy exactly when there is no truthy `name`/`headline` and the heading is all white space |
| ScrapeProperties.NoTitleNoRecord | scraper/scrape.js:108 | the page yields no record exactly when its title is falsy |
| ScrapeProperties.StructuredTitleWins | scraper/scrape.js:107 | with a truthy structured `name` or `headline`, the heading does not affect the outcome |
| ScrapeProperties.StructuredTitle | scraper/scrape.js:107 | the title is `name` when truthy, else `headline` |
| ScrapeProperties.TitleFallsBack | scraper/scrape.js:107 | with structured data that has no truthy `name` or `headline`, the title, and the record's title, is the trimmed heading |
| ScrapeProperties.TimesIgnoreHeading | scraper/scrape.js:139-153 | the times do not read the heading |
| ScrapeProperties.IngredientCount | scraper/scrape.js:170 | the entry's `l` is the structured array's length, or the number of markup items |
| ScrapeProperties.IngredientsClean | scraper/scrape.js:112-117 | structured ingredients are trimmed; a cut markup ingredient holds no line break |
| ScrapeProperties.SubStepsTrimmed | scraper/scrape.js:129 | every sub-step is trimmed |
| ScrapeProperties.StepsTrimmed | scraper/scrape.js:125-131 | every structured step is trimmed, whatever shape supplied it |
| ScrapeProperties.StepsAppend | scraper/scrape.js:125-131 | steps are flattened in order: two runs give the first's steps then the second's, and a throw in either throws |
| ScrapeProperties.FalsyStepSkipped | scraper/scrape.js:126 | a null or other falsy element changes nothing |
| ScrapeProperties.StepShapes | scraper/scrape.js:127-130 | a string gives itself trimmed; any object with a truthy string `text` gives that text trimmed and any with a truthy non-string `text` throws, whatever its other properties; an object without a truthy `text`, a `HowToStep` or not, gives nothing |
| ScrapeProperties.SubStepShape | scraper/scrape.js:129 | a sub-step with a truthy string `text` gives it trimmed, one with a truthy non-string `text` throws, and any other gives nothing |
| ScrapeProperties.SubStepsAppend | scraper/scrape.js:129 | sub-steps are flattened in order: two runs give the first's sub-steps then the second's, and a throw in either throws |
| ScrapeProperties.NestedStepShape | scraper/scrape.js:129 | a nested array contributes its sub-steps, which throw exactly when some element has a truthy `text` that is not a string |
| ScrapeProperties.NestedStepExample | scraper/scrape.js:129 | in a nested array, null elements and bare strings are skipped and `{text}` elements are kept |
| ScrapeProperties.StructuredServesWin | scraper/scrape.js:156 | with structured data, the servings are a truthy `recipeYield`, else a truthy `yield`, else the markup text, and the record carries them |
| ScrapeProperties.StructuredTotalWins | scraper/scrape.js:145-147 | a truthy parsed `totalTime` settles the times, and the markup is not read |
| ScrapeProperties.StructuredTotalIsSum | scraper/scrape.js:141-145 | without a truthy `totalTime`, the structured total is prep plus cook, each 0 when falsy |
| ScrapeProperties.MarkupFillsOnlyZero | scraper/scrape.js:147-153 | the markup fills only the zero minute fields, from `content`, and the total becomes prep plus cook |
| ScrapeProperties.TotalIsParsedOrSum | scraper/scrape.js:145-152 | the total is a truthy parsed `totalTime` or prep plus cook |
| ScrapeProperties.OgImageOnlyWithoutStructuredImage | scraper/scrape.js:157-163 | with a truthy structured `image`, `og:image` does not matter |
| ScrapeProperties.UnusableStructuredImage | scraper/scrape.js:157-161 | a truthy but unusable structured `image` gives no image, and `og:image` is not consulted |
| ScrapeProperties.OgImageFallback | scraper/scrape.js:161-164 | without a structured `image`, `og:image` is the image unless it names the placeholder |
| ScrapeProperties.NoPlaceholderImage | scraper/scrape.js:164 | no record keeps the placeholder image |
| ScrapeProperties.MarkupOnlyPageNeverThrows | scraper/scrape.js:106-166 | with no JSON-LD Recipe the build never throws, and yields a record exactly when the heading is not blank |
| ScrapeProperties.MarkupOnlyPageFields | scraper/scrape.js:106-153 | with no JSON-LD Recipe the title is the trimmed heading, each ingredient is its markup item cut at the line break, the method is the markup items, the servings are the markup text, and the times come from the markup alone |
| ScrapeProperties.MarkupOnlyPageImage | scraper/scrape.js:157-166 | with no JSON-LD Recipe the image is `og:image` unless it names the placeholder, and the vegetarian flag and recommendations come from the markup |
| ScrapeProperties.StructuredImageChosen | scraper/scrape.js:157-164 | a usable structured image (the string, the first array element, or `url`) that does not name the placeholder is the image |
| ScrapeProperties.ImageRecorded | scraper/scrape.js:164-171 | the chosen image reaches the record, and the entry then carries `i` as 1 |
| ScrapeProperties.KeyOfFile | scraper/scrape.js:76-77 | the key of `recipeDir/file` is the file name without its `.html` |
| Downloader.Flatten | downloader/index.js:27-28 | every `/` and `.` becomes `_`, and every other character stays in place |
| Downloader.AfterLastSlashes | downloader/index.js:26 | the cut keeps a suffix of the URL that holds no `//` |
| Downloader.GetOutfile | downloader/index.js:25-30 | the name ends in `.html`; its stem holds no `/` or `.` and is as long as the text after the last `//` |
| Downloader.SchemeDiscarded | downloader/index.js:26 | everything up to the last `//` is discarded |
| Downloader.SameFileForBothSchemes | downloader/index.js:25-30 | a page over `http` and over `https` maps to the same file |
| Downloader.OneSeparator | downloader/index.js:27-28 | `http://a.b` and `http://a/b` both map to `a_b.html` |
| Downloader.OutfileCollision | downloader/index.js:25-30 | two distinct URLs map to one file name |
| Downloader.NoSchemeDropsFirstCharacter | downloader/index.js:26 | a URL with no `//` loses its first character |
| Downloader.Normalize | downloader/index.js:59 | `(u && u.toString().trim()) \|\| ''` is the trimmed string |
| Downloader.TrimAll | downloader/index.js:59 | the first `map` trims every string and keeps the count and order |
| Downloader.TasksOf | downloader/index.js:60-70 | the filters never add tasks |
| Downloader.BuildTasks | downloader/index.js:59-70 | the pipeline never yields more tasks than URLs |
| Downloader.TasksWellFormed | downloader/index.js:59-70 | every task has a non-empty trimmed `http:`/`https:` URL and the file `getOutfile` derives from it |
| Downloader.TrimAllAppend | downloader/index.js:59 | the trimming `map` works element by element |
| Downloader.TasksOfAppend | downloader/index.js:60-70 | the filters work element by element |
| Downloader.BuildTasksAppend | downloader/index.js:59-70 | the tasks of two runs of URLs are the first's tasks followed by the second's |
| Downloader.BuildTasksSingle | downloader/index.js:59-70 | one URL gives the task of its trimmed text, or none |
| Downloader.NoDeduplication | downloader/index.js:59-70 | a repeated list gives every task twice |
| Downloader.TasksOfSource | downloader/index.js:60-70 | every task comes from some trimmed string |
| Downloader.TaskSource | downloader/index.js:59-70 | every task is the task of some input URL, trimmed |
| Downloader.TasksOfSurvivors | downloader/index.js:60-70 | every trimmed string that passes the filters has its task |
| Downloader.SurvivorsHaveTasks | downloader/index.js:59-70 | every input URL that survives has its task among the tasks |
| Sitemap.Parse | downloader/parser.js:6-38 | the callbacks over the events call `done` with a null error and the collected items |
| Sitemap.InLocMeaning | downloader/parser.js:13-30 | the in-`loc` flag is set exactly when some opening `loc` has no closing `loc` after it |
| Sitemap.NoLocNoItems | downloader/parser.js:14-16 | a document with no opening `loc` yields no items |
| Sitemap.OtherTagIgnored | downloader/parser.js:13-29 | other opening or closing tags change neither the flag nor the items |
| Sitemap.ItemsClean | downloader/parser.js:20-23 | every item is trimmed and non-empty |
| Sitemap.CollectedGrows | downloader/parser.js:22 | items are only appended: a prefix of the events gives a prefix of the items |
| Sitemap.ItemSource | downloader/parser.js:19-24 | every item is the trimmed text of a text event seen inside `loc` |
| Sitemap.TextCollected | downloader/parser.js:19-24 | every non-blank text inside `loc` is collected, after everything collected earlier |
| Sitemap.TextOutsideDropped | downloader/parser.js:21 | text outside `loc` is dropped |
| Sitemap.NestedText | downloader/parser.js:13-29 | text in an element nested in `loc` is collected, trimmed |

## Left out

- Network I/O is not part of this model: the site map fetch (downloader/index.js:13-23),
  the page fetch in `downloadTask` (downloader/index.js:41-54) and the image download
  (scraper/scrape.js:187-216). The image path written into `titleDB` under `img`
  (scraper/scrape.js:213) is part of that download and is left out with it.
- File-system calls are not part of this model: `readdir`, `readFile`, `writeFile`,
  `mkdir`, `access`, the skip-if-exists test and the `titles.json` write.
- The two worker pools are not modelled. These are `readFiles` with its `MAX_FILES` cap
  (scraper/scrape.js:29-58) and the download workers (downloader/index.js:73-83). They
  are concurrency over a shared counter.
- The HTML libraries are not modelled. cheerio selector results are the fields of
  `Scrape.Page`. htmlparser2's tokenising and entity decoding are replaced by the event
  sequence given to `Sitemap.Parse`.
- `JSON.parse` and `new URL` are not modelled. Their results enter as parsed `Json`
  values (with `None` for a failed parse) and as the `protocolOf` function.
- Strings are sequences of Unicode scalar values, not UTF-16 code units. A character
  outside the Basic Multilingual Plane counts once here and twice in JavaScript, and lone
  surrogates cannot be represented. So on such text the positions used by
  `substring(2)` in `parseTime`, the `length - 5` cut of the key, `lastIndexOf('//')` in
  `getOutfile` and `indexOf('\n')` in the ingredient cut are not the program's.
- JSON numbers are exact `real`s and `parseInt` yields an unbounded `int`. The
  floating-point rounding of very long numerals is not modelled.
- `Downloader.TasksOf`: its own contract states only that the filters add no task. What
  the tasks are is stated by `TasksOfSource`, `TasksOfSurvivors`, `TasksOfAppend` and
  `TasksWellFormed`.
- Console and progress output is left out, as are the unused `shorterLookups` and `db`
  (scraper/scrape.js:71-72).
