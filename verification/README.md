# Marketing site script: attribution links, language switch, mobile menu

A Dafny model of `script.js`, the one client-side script of a small
marketing website. On page load the script stores the page's query string
in session storage for attribution tracking, shows the saved language
(Swahili when none is saved) by replacing the text of every element tagged
with a translation key, and appends the stored tracking parameters to every
call-to-action (CTA) link. Two buttons switch between English and Swahili,
and a menu button shows or hides the mobile navigation menu, which any of
its links closes.

Files:

- `storage.dfy` (module `Storage`): session and local storage as
  `map<string, string>`, reads that return `None` for a missing key, and
  JavaScript truthiness of a stored value (null and `""` are falsy).
- `cta_links.dfy` (module `CtaLinks`): the href rewrite as pure functions.
  `Split` is JavaScript's string split on one character. `Rewrite` is the
  new destination of one link. `UpdatedHrefs` gives all links after an
  update. Lemmas pin down eligibility, the separator choice, fragment
  handling and the lack of idempotence.
- `translations.dfy` (module `Translations`): the English and Swahili
  tables with their real texts, the lookup that falls back to an element's
  current text, the translated element list, and the initial-language rule.
- `menu.dfy` (module `Menu`): the menu's `hidden` flag as a transition
  function over clicks, with lemmas about sequences of clicks.
- `page.dfy` (module `Site`): class `Page` holds the page state. That is the
  two stores, an array of CTA hrefs, an array of tagged elements, the
  document language, the two button `active` flags and the menu `hidden`
  flag. The script's handlers are methods on it, and the loops that walk the
  element collections update the arrays in place.

Three points where the code says more than a loose description of it would:

- The fragment is not kept as a whole. The code splits at every `#` and keeps
  only the text between the first and the second `#`, and only when that text
  is non-empty. So `#a#b` loses `#b` and a trailing bare `#` disappears. The
  model follows the code (`RewriteFragmented`).
- The separator test looks at the whole href, fragment included. So
  `http://x/#f?y` gets `&` although its query part is empty. A link that
  already carries the parameters gets them again (`RewriteNotIdempotent`).
- A saved language that the table lacks (other than the name of a property
  every JavaScript object inherits) breaks every page load. Line 96
  then throws for the first tagged element. The throw ends the load
  sequence, so the CTA links never get the tracking parameters. Storing the
  code (line 100) comes after the loop, so the bad value stays saved. Every
  later load fails the same way until a language button is clicked; those
  listeners are registered before the throw. The model keeps this behaviour
  (`Site.Page.Load` returns false). Without tagged elements nothing throws.

## Model

| member | source | states |
|---|---|---|
| `Storage.GetItem` | script.js:20 | A storage read is `Some(v)` exactly when the key was set (to `v`), and `None` (null) otherwise. This contract is the definition itself; what the reads lead to is stated by `Site.Page.UpdateCtaLinks` and `Site.Page.Load` |
| `Storage.Truthy` | script.js:21 | A stored value counts as true unless it is missing (null) or `""`. This predicate is the definition of the `!x` test on line 21 and of the `\|\|` fallback on line 136; it is used by `CtaLinks.UpdatedHrefs` and `Translations.InitialLanguage` |
| `CtaLinks.Split` | script.js:29 | Splitting on `#` yields one more piece than there are `#` characters (`Occurrences`, which `OccurrencesIsMultiplicity` proves equal to the multiset count), and no piece contains a `#` |
| `CtaLinks.JoinSplit` | script.js:29 | Re-joining the pieces with the separator gives back the original href, so no character is lost by the split itself |
| `CtaLinks.SplitWithoutSeparator` | script.js:29 | An href with no `#` splits into itself alone, so its hash piece is absent |
| `CtaLinks.SplitAtFirst` | script.js:29 | The first piece is exactly the text before the first `#`; the remaining pieces are those of the text after it |
| `CtaLinks.FirstTwoPieces` | script.js:29 | For `base#frag` followed by nothing or by another `#`, the destructured base is `base` and the hash is `frag` |
| `CtaLinks.Eligible` | script.js:27 | An href may be rewritten exactly when it starts with `http` or with `#`. This predicate is the definition; `CtaLinks.RewriteChangesExactlyEligible` proves that it decides which hrefs change |
| `CtaLinks.Separator` | script.js:25 | The separator is `&` if and only if the href contains `?` anywhere, and `?` if and only if it does not |
| `CtaLinks.Rewrite` | script.js:25-34 | The new destination of one link. Its contract is stated by `CtaLinks.RewriteUnfragmented` (hrefs without `#`) and `CtaLinks.RewriteFragmented` (hrefs with `#`), which together cover every href |
| `CtaLinks.RewriteUnfragmented` | script.js:24-34 | An href without `#` that starts with `http` becomes href + separator + params; one that does not is left as it is |
| `CtaLinks.RewriteFragmented` | script.js:25-33 | An eligible href `base#frag[#rest]` becomes base + separator + params, then `#frag` only if `frag` is non-empty; everything from a second `#` on is dropped; an ineligible href is unchanged |
| `CtaLinks.RewriteChangesExactlyEligible` | script.js:27-35 | The rewrite changes an href if and only if it starts with `http` or `#` |
| `CtaLinks.RewriteSeparator` | script.js:25 | The character placed after the base is `&` exactly when the original href contains `?` anywhere (even in the fragment), and `?` exactly when it does not |
| `CtaLinks.RewriteNotIdempotent` | script.js:25-34 | Rewriting a fragment-free eligible href twice appends the parameters a second time, after `&`, so the second result differs from the first |
| `CtaLinks.UpdatedHrefs` | script.js:20-35 | The update keeps the number of links, and a link's href changes exactly when a truthy parameter string is stored and the link is eligible; with nothing or `""` stored no link changes |
| `Site.Page.UpdateCtaLinks` | script.js:19-37 | Walks the CTA-link array and rewrites it in place so that it equals `UpdatedHrefs` of the old hrefs and the stored parameters |
| `Site.Page.CaptureUrlParams` | script.js:9-14 | A non-empty serialised query string is written under `trackingParams`; an empty one leaves session storage exactly as it was, neither written nor cleared |
| `Translations.Supported` | script.js:96 | A language code has a table exactly when it is `en` or `sw`. This predicate is the definition; it decides whether the lookup on line 96 throws, as `Site.Page.SetLanguage` and `Site.Page.Load` state |
| `Translations.English` | script.js:42-64 | The English entries, with the texts of the source. Their properties are stated by `Translations.TableKeysAgree` and `Translations.TableEntriesNonEmpty` |
| `Translations.Swahili` | script.js:65-87 | The Swahili entries, with the texts of the source. Their properties are stated by `Translations.TableKeysAgree` and `Translations.TableEntriesNonEmpty` |
| `Translations.Table` | script.js:41-88 | The entries for `en` or `sw`; whichever language is chosen, the key set is the same (the English one) |
| `Translations.TableKeysAgree` | script.js:41-88 | The English and Swahili tables have identical key sets |
| `Translations.TableEntriesNonEmpty` | script.js:41-88 | Every table text is non-empty, so the fallback never applies to a key the table has |
| `Translations.Lookup` | script.js:95-96 | An element's new text is the table entry for its key when the table has the key, and its previous text otherwise |
| `Translations.Translated` | script.js:94-97 | After translation each element keeps its key, holds the table text of that key if the table has one, and keeps its previous text otherwise |
| `Translations.SwitchTwice` | script.js:93-109 | Switching to one language and then to another shows the same texts as switching to the second directly (English then Swahili then English equals English) |
| `Translations.InitialLanguage` | script.js:136 | A saved, non-empty language is used as it is; with nothing or `""` saved the page starts in Swahili, not English. This contract is the definition itself; `Site.Page.Load` states the first-visit promise about the page state |
| `Site.Page.SetLanguage` | script.js:93-109 | For `en` or `sw`, every tagged element is translated in place as `Translated` says. The document language and the durable `language` entry become `lang`. The Swahili button alone is active for `sw`, the English one alone for any other code. For any other code the first lookup throws: the call fails and nothing changes. With no tagged element nothing throws and the code is recorded as usual |
| `Site.Page.Load` | script.js:132-140 | Page load captures the query string and shows the initial language (Swahili on a first visit, with only the Swahili button active). It then updates the CTA links from the stored parameters. If showing a saved code that the table lacks throws, the load stops there: no CTA link is updated and the bad code stays saved. The menu is untouched either way |
| `Menu.Step` | script.js:120-128 | The menu button flips `hidden`; a navigation link makes it `true` whatever it was. This contract is the definition itself; `Menu.ButtonParity` and `Menu.NavLinkCloses` state the promises about click histories |
| `Menu.Run` | script.js:120-128 | The `hidden` flag after a history of clicks, one `Step` per click, oldest first. Its properties are stated by `Menu.RunAppend`, `Menu.ButtonParity` and `Menu.NavLinkCloses` |
| `Menu.RunAppend` | script.js:120-128 | Running two click sequences in turn equals running their concatenation |
| `Menu.ButtonParity` | script.js:120-122 | Menu-button clicks alone restore the original state after an even number and invert it after an odd number |
| `Menu.ButtonTwice` | script.js:120-122 | Two menu-button clicks return the menu to its original state |
| `Menu.NavLinkCloses` | script.js:124-128 | After any history ending in a navigation-link click the menu is hidden; later menu-button clicks alone then decide it by parity |
| `Site.Page.ClickMenuButton` | script.js:120-122 | The button handler sets `hidden` to `Step` of the old state, i.e. its negation |
| `Site.Page.ClickNavLink` | script.js:124-128 | Every navigation link's handler leaves the menu hidden, whatever its prior state |

## Left out

- Parsing and serialising the query string with the browser's
  `URLSearchParams` class: `CaptureUrlParams` takes the serialised string
  as an opaque parameter.
- The browser's resolution of a link's `href` to an absolute URL (which in a
  real page makes relative and `#` links start with `http`): hrefs are the
  literal strings the code compares.
- DOM queries, listener registration and the content-loaded callback: the
  element collections are the arrays of `Page`, the language buttons'
  handlers are calls of `SetLanguage("en")` and `SetLanguage("sw")`, and all
  navigation links share one handler, `ClickNavLink`.
- Missing page elements: the code would throw when a button or the menu is
  absent. The model assumes all of them exist.
- `classList` internals: the `active` and `hidden` classes are booleans.
- Persistence of the two storage areas across sessions: they are maps held
  by the page.
- The thrown exception itself: when `setLanguage` meets a code the table
  lacks and at least one tagged element, the first lookup throws. The model
  has no exceptions. `Site.Page.SetLanguage` and `Site.Page.Load` instead
  return false and leave the page as it was at that point. The language
  buttons' handlers always pass `en` or `sw`, so they never fail.
- Translation keys that name properties every JavaScript object inherits
  (such as `constructor` or `toString`): the table lookup here sees only the
  keys written in the table.
- Site.Page.SetLanguage and Site.Page.Load: a language code that names an
  inherited property is treated like any other unsupported code, so both
  return false. The source instead finds an inherited value there, falls
  back to each element's own text without throwing, and finishes the load.
