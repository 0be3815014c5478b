# recipe-world: verified model of the search field and its companions

This project is a Dafny model of the logic in the recipe-world web app. The app is a Next.js recipe browser. Its logic is a set of small state updates and string and integer computations inside React components:

- **Search field** (`SearchField`): a class holding the focus flag, the typed text, the suggestion list, the highlighted index and the text the input shows.
  - Arrow keys and the pointer move the highlight. Arrow keys wrap around through "no highlight".
  - The input shows either the typed text or the highlighted phrase.
  - A geometry rule places the floating suggestion panel below the form.
- **Navbar search** (`SearchFieldForNavbar`): a class for the collapsible search in the navbar.
  - Open and close show and hide it.
  - A window resize handler is registered exactly while it is open.
  - On mobile widths the content is stretched across the page with `calc(…)` styles.
- **Colour alpha** (`ColorUtils`): `addOpacityToHexColor` validates the length of a `#RRGGBB` or `#RRGGBBAA` code, reads or creates the alpha, then rounds, clamps and re-appends it in lower-case hex.
- **Star rating** (`Rating`): five star slots built in an array with `Array.prototype.fill`, which clamps its indices and counts negative ones from the end.
- **Recipe card and recipe page** (`RecipeCard`, `RecipePage`): the "H h M min" time text, the favourite toggle's mode and icons, the favourite button label, ingredient quantity texts and instruction numbers.
- **Search page** (`Search`): a class for the "load more" pagination state (guard, offset, append, reset) and the results caption.
- **Card requests** (`Requests`): the two provider requests with the joined `ids` parameter, and the projection of each bulk entry onto a card.
- **Navbar links** (`Navbar`): a link is active when the path starts with its target. An active item's styles gain the primary colour.

Shared modules:

- `Strings` holds the JavaScript conversions the components rely on, written out and proved:
  - decimal `String(n)` and its reading back;
  - `toString(16)` and `parseInt(s, 16)` with sign, `0x` prefix and longest-valid-prefix rules;
  - `startsWith`, `join` and `split`.
- `JsMath` holds `Math.round` (floor of x + 0.5) and clamping.
- `Theme` holds the theme constants the components read, and the unary-plus conversion of a breakpoint such as "768px".

Nothing external is called:

- HTTP responses, DOM measurements (rectangles, widths) and whether a ref is mounted are parameters.
- An awaited call's failure is a datatype case.
- JavaScript's `NaN` from `parseInt` or unary plus is `None`.

Behaviour the code does not have, and the model does not either:

- Installing suggestions does not reset the highlight.
- Blur and typing do not clear the suggestion list.
- The list always installs the same fixed test suggestions.
- There is no submit handler.
- Moving the pointer over a suggestion highlights it without changing the input text.

Two observations that follow from the code:

- At exactly 768 pixels the navbar uses its mobile layout (the test is `innerWidth > 768`), while the suggestion panel keeps the form's width (the test is `innerWidth < 768`). See `SearchFieldForNavbar.TabletWidthBoundary`.
- The results caption prints "null" for the count until the first page arrives.

## Model

| member | source | states |
|---|---|---|
| SearchField.NextIndex | components/SearchField.tsx:298-320 | ArrowDown: none → 0 and last → none, otherwise the next index; the result stays a valid highlight (none or an index into the list). The empty list is the corrected no-op. |
| SearchField.PreviousIndex | components/SearchField.tsx:322-346 | ArrowUp: none → last and 0 → none, otherwise the previous index; the result stays a valid highlight |
| SearchField.PreviousUndoesNext | components/SearchField.tsx:298-346 | from every valid highlight, ArrowUp after ArrowDown and ArrowDown after ArrowUp both return to the original highlight |
| SearchField.NextTimesFromNone | components/SearchField.tsx:299-319 | from none, the k-th ArrowDown highlights index k−1, and the (n+1)-th returns to none on an n-item list |
| SearchField.PreviousTimesFromNone | components/SearchField.tsx:322-345 | from none, the k-th ArrowUp highlights index n−k, and the (n+1)-th returns to none |
| SearchField.DisplayValue | components/SearchField.tsx:298-346 | the text the input shows: the typed text without a highlight, otherwise the highlighted suggestion's phrase |
| SearchField.HighlightFlags | components/SearchField.tsx:229-239 | per rendered item, whether it is highlighted: item i is exactly when the highlight is i, so at most one is, and one is exactly when there is a highlight |
| SearchField.SelectNextAsWritten | components/SearchField.tsx:298-320 | ArrowDown as written: it throws exactly when it sets a highlight outside the list; completing without a highlight shows the typed text, completing with one shows that suggestion's phrase |
| SearchField.SelectPreviousAsWritten | components/SearchField.tsx:322-346 | ArrowUp as written: the same three cases as ArrowDown |
| SearchField.ArrowKeyOnEmptyListThrows | components/SearchField.tsx:299-305 | on the empty list the handlers as written read `suggestions[0]` or `suggestions[-1]`, leave the highlight outside the list and throw |
| SearchField.AsWrittenAgreesOnNonEmptyList | components/SearchField.tsx:298-346 | on a non-empty list the handlers as written complete with the corrected index and the text `DisplayValue` gives |
| SearchField.WalkThroughTestSuggestions | components/SearchField.tsx:172-184 | with the installed test suggestions, two ArrowDowns show "dgdfdfg sdfwe" and five bring back the typed text |
| SearchField.PastaPaellaWalk | components/SearchField.tsx:298-320 | on a two-item list, two ArrowDowns show the second phrase and a third restores the typed text |
| SearchField.SearchFieldState.ListShown | components/SearchField.tsx:388 | the suggestion panel is rendered exactly when the field has focus and the search button is enabled |
| SearchField.SearchFieldState.SearchButtonDisabled | components/SearchField.tsx:385 | the search button is `aria-disabled` exactly when nothing was typed |
| SearchField.SearchFieldState.constructor | components/SearchField.tsx:267-272 | starts unfocused with empty text, no suggestions and no highlight; the list is hidden and the search button disabled |
| SearchField.SearchFieldState.HandleFocus | components/SearchField.tsx:284-286 | sets the focus flag and nothing else; the list is then shown iff text was typed |
| SearchField.SearchFieldState.HandleBlur | components/SearchField.tsx:288-291 | clears focus and highlight and hides the list; text, suggestions and input text unchanged |
| SearchField.SearchFieldState.HandleChange | components/SearchField.tsx:293-296 | typed text and input text become the new value and the highlight is cleared; the button is disabled iff the value is empty |
| SearchField.SearchFieldState.InstallSuggestions | components/SearchField.tsx:181-184 | while the list is shown, installs the test suggestions and keeps the highlight |
| SearchField.SearchFieldState.SelectNextSuggestion | components/SearchField.tsx:298-320 | highlight becomes `NextIndex` of the old one, and the input shows `DisplayValue` of it; the invariant is kept |
| SearchField.SearchFieldState.SelectPreviousSuggestion | components/SearchField.tsx:322-346 | highlight becomes `PreviousIndex` of the old one, and the input shows `DisplayValue` of it; the invariant is kept |
| SearchField.SearchFieldState.HandleKeyDown | components/SearchField.tsx:348-356 | ArrowUp and ArrowDown move the highlight as above and, on an empty list, leave no highlight and the input text as it was; every other key changes nothing |
| SearchField.SearchFieldState.HandlePointerMove | components/SearchField.tsx:217-221 | the item's position becomes the highlight (−1 gives none); the input text is untouched |
| SearchField.SearchFieldState.HandlePointerLeave | components/SearchField.tsx:223-225 | clears the highlight; everything else unchanged |
| SearchField.FullWidthBelowTablet | components/SearchField.tsx:193-201 | with the "768px" breakpoint, the panel spans the viewport exactly for widths below 768 |
| SearchField.SuggestionListStyle.SetStyle | components/SearchField.tsx:189-208 | nothing happens without mounted refs; otherwise top is the form's bottom, and below 768 left is "0" and width "100%", else the form's left and width in px |
| SearchFieldForNavbar.MobileLayout | components/SearchFieldForNavbar.tsx:159-168 | the breakpoint text without its unit is 768, and the mobile layout applies exactly for widths ≤ 768 |
| SearchFieldForNavbar.TabletWidthBoundary | components/SearchFieldForNavbar.tsx:165 | the navbar's mobile layout and the panel's full width agree at every width except exactly 768 |
| SearchFieldForNavbar.MobileRight | components/SearchFieldForNavbar.tsx:178-181 | the `right` text is a `calc` whose pixel number reads back as −(body width − container right) and whose rest adds the page padding |
| SearchFieldForNavbar.MobileWidth | components/SearchFieldForNavbar.tsx:177-183 | the `width` text is a `calc` whose pixel number reads back as the body width and whose rest subtracts the page padding |
| SearchFieldForNavbar.MobilePaddingNumber | theme.ts:27 | the mobile page padding both `calc` texts add or subtract converts to 18 pixels |
| SearchFieldForNavbar.NavbarSearch.constructor | components/SearchFieldForNavbar.tsx:136-143 | starts hidden with no resize handler, which satisfies the invariant |
| SearchFieldForNavbar.NavbarSearch.ResetMobileStyle | components/SearchFieldForNavbar.tsx:149-156 | clears `right` and `width` when the content is mounted; nothing else changes |
| SearchFieldForNavbar.NavbarSearch.SetMobileStyle | components/SearchFieldForNavbar.tsx:158-188 | above 768 clears the position; otherwise, with both refs mounted, sets `calc(-offset px + 18px)` and `calc(body px - 18px)` |
| SearchFieldForNavbar.NavbarSearch.Open | components/SearchFieldForNavbar.tsx:190-199 | does nothing without its refs; otherwise shows the field with display flex and registers the handler, and the content's position is cleared above 768, stretched with both refs mounted, and left as it was otherwise. The invariant (handler registered iff shown) is kept. |
| SearchFieldForNavbar.NavbarSearch.Close | components/SearchFieldForNavbar.tsx:201-209 | hides the field, clears its display and the content's position, and leaves no resize handler registered, so open-then-close leaves none |
| SearchFieldForNavbar.NavbarSearch.OnBlur | components/SearchFieldForNavbar.tsx:211-214 | the handler sits on the search form (components/SearchField.tsx line 369): focus moving to an element inside that form keeps the whole state; any other blur closes the field, including focus moving to the navbar's close button or to the suggestion panel, which are outside the form |
| SearchFieldForNavbar.NavbarSearch.OnResize | components/SearchFieldForNavbar.tsx:158-198 | while the field is shown the handler clears the position above 768 and stretches the content with both refs mounted; shown state, display and handlers never change |
| ColorUtils.AddOpacityToHexColor | lib/colorUtils.ts:19-37 | raises `ValueError` with the length message iff the length is neither 7 nor 9; otherwise the output is longer than 7 and starts with the input's first 7 characters |
| ColorUtils.NewAlpha | lib/colorUtils.ts:26-35 | the rounded, clamped alpha lies in [0, 255], and a 7-character code always has one |
| ColorUtils.AlphaReadsBack | lib/colorUtils.ts:34-36 | the output is 8 or 9 characters, and its tail parses back as the clamped alpha |
| ColorUtils.SevenCharacterAlpha | lib/colorUtils.ts:28-29 | for a 7-character code the alpha is clamp(round(opacity·255)) |
| ColorUtils.NineCharacterAlpha | lib/colorUtils.ts:30-35 | for a 9-character code with a hex alpha, the new alpha is clamp(round(old + opacity·255)); opacity 0 keeps it |
| ColorUtils.ZeroOpacityIsIdentity | lib/colorUtils.ts:30-36 | a 9-character code with a lower-case two-digit alpha not starting with 0, at opacity 0, comes back unchanged |
| ColorUtils.NonHexAlphaGivesNaN | lib/colorUtils.ts:31-36 | a 9-character code's output is its first seven characters followed by "NaN" exactly when `parseInt` reads its alpha as `NaN` |
| ColorUtils.NonHexAlphaExample | lib/colorUtils.ts:31-36 | "#1B1B1Bzz" at any opacity gives "#1B1B1BNaN" (shown at 0.5) |
| ColorUtils.InactiveTextColour | lib/colorUtils.ts:28-36 | the text colour at the inactive-input opacity 0.6 is "#1B1B1B99" |
| Rating.HalfStarCount | components/Rating.tsx:24 | `floor(r/2) − ceil(r/2)` is 0 or −1, and non-zero exactly for odd r |
| Rating.RelativeIndex | components/Rating.tsx:26-27 | `fill`'s index: the argument when in [0, length], length above it, and length + k clamped at 0 for a negative k |
| Rating.Fill | components/Rating.tsx:26-27 | every slot in the clamped range gets the value, every other slot keeps its old value |
| Rating.RatingStars | components/Rating.tsx:21-41 | builds a fresh five-slot array equal to `StarLayout(round(rating))`; for a negative rounded score it equals `NegativeLayout` |
| Rating.StarAt | components/Rating.tsx:26-31 | slot i is full below min(r/2, 5), half at index r/2 when r is odd, and empty otherwise |
| Rating.StarAtNegative | components/Rating.tsx:26-31 | for a negative rounded score, the slots before the end-relative fill index are full and the rest empty |
| Rating.StarCounts | components/Rating.tsx:22-31 | exactly five slots: min(r/2, 5) full, one half iff r is odd and below 10, the rest empty |
| Rating.EdgeRatings | components/Rating.tsx:22-27 | 0 gives five empty stars, r ≥ 10 gives five full stars, and −1 gives four full stars |
| RecipeCard.SplitMinutes | components/RecipeCard.tsx:139-140 | 60·hours + mins equals the time, with 0 ≤ mins < 60 |
| RecipeCard.SplitMinutesUnique | components/RecipeCard.tsx:139-140 | this split is the only one with minutes in [0, 60) |
| RecipeCard.TimeStringShape | components/RecipeCard.tsx:138-141 | the text ends in " min"; below an hour it is just the minutes; from an hour on it starts with the whole hours and " h " |
| RecipeCard.TimeStringRoundTrip | components/RecipeCard.tsx:138-149 | the time text of a non-negative duration parses back as that duration |
| RecipeCard.TimeStringExamples | components/RecipeCard.tsx:141 | 145 → "2 h 25 min", 60 → "1 h 0 min", 45 → "45 min" |
| RecipeCard.ToggleMode | components/RecipeCard.tsx:217 | the mode is Remove exactly for a favourite |
| RecipeCard.ToggleIcons | components/RecipeCard.tsx:77-97 | the shown icon and the hover icon always differ |
| RecipeCard.ToggleIconsShowStateAndPreview | components/RecipeCard.tsx:77-97 | the icon shows the current state and the hover icon previews the toggled state |
| RecipePage.TimeAndPortions | pages/recipes/recipe.tsx:106-123 | the page's time text equals the card's, and the portions text is "<n> portions" |
| RecipePage.TimeExamples | pages/recipes/recipe.tsx:107-109 | 110 → "1 h 50 min", 45 → "45 min" |
| RecipePage.FavoriteButtonLabel | pages/recipes/recipe.tsx:237 | the label is "REMOVE FROM FAVORITES" exactly for a favourite and "ADD TO FAVORITES" exactly otherwise |
| RecipePage.LabelMatchesToggleMode | pages/recipes/recipe.tsx:237 | the label says REMOVE exactly when the card's toggle is in Remove mode, and ADD exactly in Add mode |
| RecipePage.IngredientLines | pages/recipes/recipe.tsx:319-330 | one line per ingredient, in order, with that ingredient's quantity text and name |
| RecipePage.QuantityText | pages/recipes/recipe.tsx:324 | the text ends with a space and the unit, and what precedes them reads back as the amount, negative amounts included |
| RecipePage.QuantityTextSplits | pages/recipes/recipe.tsx:324 | for every amount, negative ones included, the quantity text splits at its first space into the amount, which reads back, and the unit, which may be empty |
| RecipePage.InstructionItems | pages/recipes/recipe.tsx:370-381 | one item per step, carrying the step text in order |
| RecipePage.InstructionNumbering | pages/recipes/recipe.tsx:375 | the i-th label is a number and a dot, and the number reads back as i+1 |
| Search.SearchPage.constructor | components/Search.tsx:83-85 | no total, no results, not loading |
| Search.SearchPage.FetchRecipes | components/Search.tsx:89-119 | a request goes out iff the router is ready and the results are not known to be complete. Its offset is the number loaded. A page appends its cards and sets the total, after which fetching stops once all are loaded; otherwise nothing changes and loading stays set. |
| Search.SearchPage.ResetOnRouteChange | components/Search.tsx:121-125 | no results, no total and not loading, so the next fetch goes out iff the router is ready |
| Search.CountText | components/Search.tsx:130-132 | the text is "null" exactly while the count is unknown, and a known count reads back as itself |
| Search.ResultsText | components/Search.tsx:127-133 | the caption starts with "Showing ", and with "Showing All " exactly when there is no non-empty query |
| Search.CaptionCountReadsBack | components/Search.tsx:127-133 | in both captions the word after "Showing " or "Showing All " is the count text, and a known total reads back from it |
| Search.CaptionForms | components/Search.tsx:127-133 | the query caption never equals the all-recipes caption, an empty query gives the all-recipes caption, and the query caption ends with the quoted query |
| Search.CaptionIdentifiesQuery | components/Search.tsx:129-130 | for the same count, different queries give different captions |
| Requests.SearchRequest | lib/requests.tsx:40-49 | an omitted query or sort is sent as "", a given one as given, with the requested number |
| Requests.IdsParam | lib/requests.tsx:55 | the `ids` parameter is empty exactly for no results and holds only digits and commas |
| Requests.IdsParamRoundTrip | lib/requests.tsx:55 | the `ids` parameter reads back as exactly the search result ids, in order |
| Requests.RatingIsScoreOrZero | lib/requests.tsx:70 | the truthiness default is the score when present and 0 otherwise |
| Requests.ToCard | lib/requests.tsx:62-74 | id, title and ready time are copied; the href and image URL are built from the id; never a favourite; the rating is the score or 0 |
| Requests.CardHrefsDistinct | lib/requests.tsx:65 | distinct recipes get distinct card links |
| Requests.GetRecipeCardInfos | lib/requests.tsx:30-79 | data and error are exclusive. Data is present iff both calls succeed, with one card per bulk entry in order. The requests issued and the error returned are stated per failure point. |
| Navbar.ActiveFlags | components/Navbar.tsx:146-162 | one flag per link in fixed order, each true iff the path starts with that link's target |
| Navbar.AtMostOneActive | components/Navbar.tsx:147-160 | no path activates both links |
| Navbar.ActiveLinkExamples | components/Navbar.tsx:160 | "/recipes/42" activates Recipes only, "/favorites" Favorites only, "/" neither |
| Navbar.NavItemStyles | components/Navbar.tsx:94-111 | both styles have a colour key iff the item is active (absent flag = inactive), and it is the primary colour; the other keys are the common styles plus the hover colour |
| Theme.BreakpointNumber | components/SearchField.tsx:193-196 | the converted breakpoint is never negative; a text of two characters or fewer converts to 0; a longer one is a number exactly when all but its last two characters are digits |
| Theme.BreakpointRoundTrip | components/SearchFieldForNavbar.tsx:159-163 | a number followed by a two-letter unit converts back to the number |
| Theme.TabletBreakpointNumber | components/SearchField.tsx:193-196 | the tablet breakpoint converts to 768 |
| Strings.NatToStringRoundTrip | components/RecipeCard.tsx:141 | decimal text of n parses back to n |
| Strings.HexStringRoundTrip | lib/colorUtils.ts:31-36 | `parseInt(n.toString(16), 16)` is n |
| Strings.HexString | lib/colorUtils.ts:36 | `toString(16)` is lower-case hex without leading zeros: one digit iff n < 16, at most two below 256 |
| Strings.SplitJoin | lib/requests.tsx:55 | splitting a join at a separator no part contains gives the parts back |
| JsMath.Round | lib/colorUtils.ts:34 | the rounded value is within half a unit of x, ties rounding up |
| JsMath.Clamp | lib/colorUtils.ts:35 | the result lies in [lo, hi] and equals v when v does |

## Left out

- HTTP, the axios instance and its logging, the API routes and the router. Responses, router readiness and query values are inputs.
- The DOM and React:
  - `getBoundingClientRect`, `clientWidth` and `innerWidth` are integer parameters. Fractional pixel coordinates are not modelled.
  - Whether a ref is mounted is a constructor or method parameter.
  - Each handler is one atomic state update. setState batching, stale closures and effect timing are not modelled.
- The `focus()` call in `open` and the input's imperative `focus` handle are not modelled. The focus event they cause is `HandleFocus`.
- The suggestion list's own resize listener (re-added after every render and removed by the effect cleanup) is not modelled. `SetStyle` is modelled as a method that can be called at any time.
- `preventDefault` on the arrow keys is not modelled.
- Rendering and styling: markup, CSS, styled-components, icons and portals. The panel renders the fixed test list directly, and the model uses the installed list, which equals it once installed.
- `router.query.query` given as an array of strings is not modelled. Query and sort are optional strings.
- The thrown error in `getRecipeCardInfos` is modelled as a string.
- `JsMath.Round`: opacities and ratings are exact reals. Binary floating-point rounding of `opacity * 255` is not modelled.
- `RecipePage.QuantityText`: an ingredient's amount is an integer. The source's amounts are JavaScript numbers, so a fractional amount such as 0.5 renders "0.5 g", which is not modelled.
- `RecipePage.TimeAndPortions` and `RecipeCard.TimeString`: the minutes and the portions are integers. Fractional minutes, which the source's `number` allows, are not modelled.
- `ColorUtils.AddOpacityToHexColor`: lengths count Dafny characters, whereas JavaScript's `length` counts UTF-16 code units. The two differ for characters outside the Basic Multilingual Plane, which a hex colour code does not contain.
- `Strings.ParseIntHex`: leading whitespace, which `parseInt` skips, is not modelled. Inputs here are slices of hex colour codes.
- `Theme.BreakpointNumber`: unary plus is modelled for "" and plain decimal digits. Any other text gives `NaN`, including forms JavaScript accepts such as "1e3", " 7" or "0x10"; none of these occur in the theme.
- `Rating.RatingStars`: for a rounded score of 11 or more that is odd, the source writes the half star at index 5 or beyond, which grows the array past the five rendered slots. The model keeps only the rendered slots. For a negative score the half star goes to a negative property, which is not a slot.
- `SearchField.SearchFieldState.HandlePointerMove`: requires the pointed item to be one of the installed suggestions, since its position comes from the rendered list.
- `SearchFieldForNavbar.NavbarSearch.SetMobileStyle`: requires the field to be shown, because the source calls it only from `open` and from the resize handler that `open` registers.
- `SearchField.SearchFieldState.SelectNextSuggestion` and `SearchField.SearchFieldState.SelectPreviousSuggestion` implement the corrected no-op on an empty list (see Findings); the code as written throws.

## Findings

| source | as written | input that shows it | evidently intended | confidence | as-written member | corrected member |
|---|---|---|---|---|---|---|
| components/SearchField.tsx:299-305, 322-331 | `selectNextSuggestion` and `selectPreviousSuggestion` read `suggestions[0]` and `suggestions[suggestions.length - 1]` without checking that the list is non-empty | focus the field before typing (the list is still `[]`) and press ArrowDown: the highlight becomes 0 (ArrowUp: −1), outside the list, and reading `.suggestionPhrase` of `undefined` throws a `TypeError` | an arrow key on an empty list changes nothing, so the highlight stays none or a valid index | not executed | SearchField.ArrowKeyOnEmptyListThrows | SearchField.NextIndex |
