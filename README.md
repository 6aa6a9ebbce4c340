# Section navigation for a single-page portfolio site, in Dafny

The site's only script, `assets/js/main.js`, makes a static page interactive.
It keeps track of which content section (`main .section`) is current. It marks
the navigation link (`.nav__link`) for that section as active and hides the
previous/next buttons at either end. It moves between sections on arrow keys,
horizontal swipes, the prev/next buttons and in-page link clicks, and follows
the scroll position, throttled to one recomputation per animation frame. It
also opens and closes the mobile menu and checks the contact form before
showing a simulated success message.

This project models that behaviour with the browser treated as inputs:

- the layout of each section (`offsetTop`, `offsetHeight`);
- the header height as `parseInt` reads it;
- `scrollY` and the viewport width;
- the href under a click, and whether `document.querySelector` finds its target;
- key names and touch coordinates.

Modules, one file each:

- `Wrappers`: `Option`.
- `Search`: the first-match search used by the scroll scan and by the active-link `find`.
- `Sections`: `Box` layout, the saturating clamp, the header offset (72 fallback), the scroll target, the probe position, the first section holding a position, and the `'#' + id` to index table.
- `NavLinks`: which link is active for an index; placeholder hrefs `#` and `#0`.
- `Gestures`: swipe classification (threshold 50) and the arrow-key step.
- `ContactForm`: ECMAScript `trim`, the required-fields check, and a `Form` class for the submit handler.
- `Controller`: class `PageController`. It holds the module-level state of the script: `currentIndex`, `ticking`, `touchStartX/Y`, the `is-active` flags of the links (an array), the visibility of the buttons and menu, and the smooth-scroll commands issued. Each event handler is a method. The methods are specified with the predicates `Landed` (what `goToIndex` does), `TrackedScroll` (what `updateCurrentIndexFromScroll` does), `ActiveSynced` and `ButtonsSynced`.
- `Scenarios`: client methods that run the handlers through concrete interactions and check, from the contracts alone, what the page ends up showing.

At its edges the code behaves as follows, and the model follows the code:

- With zero sections, `goToIndex` reads `sections[0]` as `undefined` and throws before changing anything. `GoToIndex` returns `ok == false` then, and the handlers that call it change nothing either. In the touch handler this also means the start point is not cleared. With at least one section the index is always in `[0, n-1]`.
- The mobile menu is closed after a navigation only when the `#site-nav` element exists. `aria-expanded` is reset only when the toggle exists.
- A navigation link counts as active when it is the FIRST link whose href maps to the current index. Several links may map to one section.
- When sections share an id, the hash maps to the LAST of them (`IdIndexLookup`). The table is filled by plain assignment in document order.
- `goToIndex` scrolls to `top - offset + 4`. That leaves the section's top edge 4 pixels UNDER the fixed header, not in a gap below it as the comment at line 74 says. The model keeps the `+ 4`.
- A section whose id is `0` can never be reached by a link: its hash `#0` is dropped as a placeholder before the table is consulted (`PlaceholderSection`).

## Model

| member | source | states |
|---|---|---|
| `Search.FirstIndex` | assets/js/main.js:28 | the result is the smallest index whose element satisfies the predicate, and None exactly when no element does |
| `Sections.Clamp` | assets/js/main.js:70 | with at least one section the index lands in `[0, n-1]`; an in-range index is kept; below 0 it saturates to 0 and at or above `n` to `n-1`; with no sections it is 0 |
| `Sections.HeaderOffset` | assets/js/main.js:72-73 | the offset is never 0: a parsed non-zero header height is used as is, and NaN or 0 falls back to 72 |
| `Sections.ScrollTarget` | assets/js/main.js:74 | once the page is scrolled to the target, the scroll-tracking probe sits 14 pixels into the section, whatever the header height |
| `Sections.ScrollTargetIsTracked` | assets/js/main.js:58-74 | on stacked sections, should the window reach section `k`'s scroll target, tracking the scroll with the same header offset selects `k` again, when `k` is taller than 14 pixels |
| `Sections.FirstContaining` | assets/js/main.js:59-66 | the result is the smallest index `i` with `top_i <= pos < top_i + height_i`, and None exactly when no section holds `pos` |
| `Sections.InsideSectionSelectsIt` | assets/js/main.js:59-66 | on sections stacked without overlap, a position inside section `k` selects `k`, for every `k` |
| `Sections.IdIndex` | assets/js/main.js:22-23 | every index in the hash table is a valid section index |
| `Sections.IdIndexLookup` | assets/js/main.js:22-23 | a hash is in the table iff some section has that `'#' + id` (sections without an id contribute none), and it maps to the last such section |
| `Sections.BuildSectionIndex` | assets/js/main.js:23 | the `forEach` loop builds exactly the table `IdIndex` describes |
| `NavLinks.PlaceholderSection` | assets/js/main.js:23-37 | of the placeholder hrefs `#` and `#0` (`IsPlaceholder`), only `#0` can be a section hash, and it is one iff some section has the id `0`; such a section is never navigated to by a link |
| `NavLinks.FirstLinkTo` | assets/js/main.js:28 | the found link is the first whose href is a table key mapping to the index; None iff no link maps to it |
| `NavLinks.ActiveFlags` | assets/js/main.js:26-30 | link `k` is active iff its href maps to the index and no earlier link's does |
| `NavLinks.ActiveFlagsSingle` | assets/js/main.js:26-30 | at most one link is active, and one is active iff some link maps to the index |
| `Gestures.ClassifySwipe` | assets/js/main.js:119-126 | a touch moves sections iff `abs(dx) > abs(dy)` and `abs(dx) > 50`; next requires a leftward move (`dx < -50`), previous a rightward one |
| `Gestures.SwipeMirror` | assets/js/main.js:124-125 | mirroring a gesture horizontally swaps next and previous and keeps ignored gestures ignored |
| `Gestures.SwipeStep` | assets/js/main.js:125 | a recognised swipe steps the index by exactly one: +1 (next section) iff it is a leftward swipe, -1 otherwise |
| `Gestures.KeyStep` | assets/js/main.js:93-96 | ArrowRight steps +1, ArrowLeft steps -1, and every other key does nothing |
| `ContactForm.TrimStart` | assets/js/main.js:143 | the result is the suffix of the value left after dropping only whitespace, and it does not start with whitespace |
| `ContactForm.TrimEnd` | assets/js/main.js:143 | the result is the prefix of the value left after dropping only whitespace, and it does not end with whitespace |
| `ContactForm.Trim` | assets/js/main.js:143 | `trim()` returns a slice of the value, everything cut off on either side is whitespace, and the slice is empty or neither starts nor ends with whitespace |
| `ContactForm.TrimEmptyIffWhitespace` | assets/js/main.js:143 | `trim()` gives the empty string iff every character of the value is ECMAScript whitespace |
| `ContactForm.Validate` | assets/js/main.js:143-147 | a submission is rejected iff name, email or message consists of whitespace only (empty included) |
| `ContactForm.Form.constructor` | assets/js/main.js:135-137 | the form starts with its default values, records whether `#contact-status` exists, and keeps the status text and colour the page's markup gives it |
| `ContactForm.Form.Submit` | assets/js/main.js:138-152 | every submission prevents the page reload; a rejected submission shows the error text in the error colour and keeps the fields; an accepted one shows the success text without error colour and resets every field to its default; without a status element nothing changes |
| `Controller.PageController.constructor` | assets/js/main.js:19-24 | start-up records the sections and links, builds the hash table, and starts at index 0 with no pending frame and no touch |
| `Controller.PageController.UpdateActiveNav` | assets/js/main.js:26-30 | afterwards the links' active flags are exactly `ActiveFlags` of the current index, whatever they were before |
| `Controller.PageController.UpdateSectionNavButtons` | assets/js/main.js:86-90 | with both buttons present, prev is hidden iff index <= 0 and next iff index >= n-1; otherwise neither changes |
| `Controller.PageController.GoToIndex` | assets/js/main.js:69-79 | with `n >= 1`: the index becomes the clamp of `idx`, one smooth scroll to `top - offset + 4` is issued, links and buttons show the new index, and menu, throttle and touch state are untouched; with no sections nothing changes |
| `Controller.PageController.UpdateCurrentIndexFromScroll` | assets/js/main.js:55-67 | probing `scrollY + offset + 10` (`ProbePosition`, `ProbeOf`), with the header offset falling back to 72, the index becomes the first section holding the probe, or stays when none does; links and buttons are refreshed only if the index changed |
| `Controller.PageController.OnScroll` | assets/js/main.js:99-108 | a scroll schedules a frame callback iff none is pending; afterwards `ticking` is set and at most one callback is pending |
| `Controller.PageController.OnAnimationFrame` | assets/js/main.js:102-105 | the pending callback tracks the scroll position and releases the throttle, leaving no callback pending |
| `Controller.PageController.OnLoad` | assets/js/main.js:132 | on load the index follows the scroll position and links and buttons are refreshed unconditionally |
| `Controller.PageController.OnKeyDown` | assets/js/main.js:93-96 | ArrowRight acts as `goToIndex(currentIndex + 1)`, ArrowLeft as `goToIndex(currentIndex - 1)`, and any other key changes nothing |
| `Controller.PageController.OnPrevClick` | assets/js/main.js:83 | the prev button acts as `goToIndex(currentIndex - 1)` |
| `Controller.PageController.OnNextClick` | assets/js/main.js:84 | the next button acts as `goToIndex(currentIndex + 1)` |
| `Controller.PageController.OnTouchStart` | assets/js/main.js:115-118 | the touch start point is recorded |
| `Controller.PageController.OnTouchEnd` | assets/js/main.js:119-128 | with no recorded start nothing happens; otherwise a recognised swipe acts as `goToIndex(currentIndex ± 1)`, and with at least one section the start point is cleared whatever the gesture was |
| `Controller.PageController.OnClick` | assets/js/main.js:33-53 | the default is prevented iff there is a non-placeholder in-page link whose target exists; a section hash then acts as `goToIndex` of its index and any other hash as a plain smooth scroll; at width <= 900 with a menu, the menu is hidden and, when the toggle exists, `aria-expanded` becomes false; otherwise nothing changes |
| `Controller.PageController.ToggleNav` | assets/js/main.js:7-11 | `aria-expanded` flips, and the menu becomes hidden iff it was expanded |
| `Scenarios.ActiveNavIdempotent` | assets/js/main.js:26-30 | once the active flags show the current index, running `updateActiveNav` again leaves every flag as it was |

## Left out

- DOM querying and listener wiring (`querySelector`, `getElementById`, `closest`, `addEventListener`). Their results are the `Page` snapshot and the handlers' inputs. A listener on an optional element becomes a method that requires that element.
- Smooth-scroll animation: `scrollTo` and `scrollIntoView` are host behaviour. The model records each command in `scrolls` and not the scrolling itself.
- The browser clamping `scrollTo` to the scrollable range. A target can be out of reach: for the first section with the default header it is -68, and a short last section may be out of reach too. `ScrollTargetIsTracked` therefore speaks only of a window that reached the target.
- `requestAnimationFrame` timing. Only the `ticking` flag and the count of scheduled callbacks are modelled. The host running a scheduled callback is `OnAnimationFrame`.
- `getComputedStyle` and `parseInt` of `--header-height`. The parsed number is an input: `Option<int>`, with None for NaN.
- The footer year, written from `new Date()` (lines 13-16). It reads the clock and contains no logic.
- Colour and `display` strings beyond the hidden/shown and error/normal flags they encode.
- `document.querySelector(href)` throwing on an href that is not a valid CSS selector (for example `#2024`). The handler then aborts without effect, which is the same as `targetExists == false`.
- Fractional `scrollY` and touch coordinates. All positions are modelled as integers.
- Multi-touch. A touch is its first changed touch point, as in the source.
- A navigation link without an `href` attribute. The source looks up the key `"null"`, which is never a section hash. Callers pass any string that is not in the table.
- A contact form missing one of its three inputs. The source throws there; the model's form always has all three.
- `ContactForm.Form.Fill` stands for the user typing into the inputs; the source has no such code.
