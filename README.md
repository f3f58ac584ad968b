# words. — a Dafny model of the random word page

The app shows one random English word in a style derived from the word
itself. It uses a seeded gradient background, a seeded font from a Google
Fonts catalog, a black or white text colour chosen for contrast, and a small
seeded rotation. A refresh button fades the word out and fetches another
word from the server. The server caches the word list it reads from
`public/words.txt`.

This project models four parts of the app:

- **`js_builtins.dfy` (`JsBuiltins`)**: the JavaScript semantics the code relies on, written out:
  - `ToInt32`/`ToUint32` and the 32-bit `<<` and `&`;
  - `charCodeAt` as UTF-16 code units;
  - `startsWith`, and `replace` of the first occurrence of a one-character pattern;
  - `trim` with the ECMAScript white-space set, and `split`/`join`;
  - `||` on a possibly unset string;
  - `String(n)` and `Number(digits)`.
- **`utils.dfy` (`Utils`)**: `src/lib/utils.ts`:
  - the string hash behind `seededRandom`, as a loop over code units proved equal to the Java-style polynomial hash reduced to 32 bits;
  - the seeded draw in [0, 1);
  - `generateGradientColors`;
  - `getContrastColor`, over the digit runs of the colour string;
  - `getRandomItem`.
- **`config.dfy` (`Config`)**: `src/lib/config.ts`, i.e. `urlify` and `getServerUrl`.
- **`actions.dfy` (`Actions`)**: `src/app/actions.ts`:
  - the module-level word cache as a class whose `words` field `loadWords` reassigns;
  - the parsing of the word file;
  - `getRandomWord`.
- **`word_display.dfy` (`WordDisplay`)**: `src/components/word-display.tsx`:
  - the styles `updateStyles` derives;
  - the component state as a class. Its fields are `wordState`, `isRefreshing` and whether the fade timeout is scheduled, plus a ghost count of fetches in flight;
  - the three events that drive the class: a click on the refresh button, the fade timeout firing, and a requested word arriving.
  
  React's effects are run inside those events, at the points where React would re-run them.

  A second class, `FixedWordDisplay`, is the same component with the refresh guard cleared when the word arrives. See "Findings".

## Model

| member | source | states |
|---|---|---|
| JsBuiltins.ToInt32 | src/lib/utils.ts:13 | the result is a signed 32-bit integer congruent to the input modulo 2^32, and equals the input when it already fits |
| JsBuiltins.ShiftLeft | src/lib/utils.ts:12 | `x << n` is a signed 32-bit integer |
| JsBuiltins.BitAnd | src/lib/utils.ts:13 | `a & b` is a signed 32-bit integer |
| JsBuiltins.BitAndSelf | src/lib/utils.ts:13 | `x & x` is exactly the conversion of `x` to a signed 32-bit integer |
| JsBuiltins.CodeUnits | src/lib/utils.ts:10-11 | a string has at least as many UTF-16 code units as characters, each in [0, 0xFFFF] |
| JsBuiltins.IndexOf | src/components/word-display.tsx:50 | -1 exactly when the character is absent; otherwise the position of its first occurrence |
| JsBuiltins.ReplaceFirst | src/components/word-display.tsx:50 | `replace` with a one-character pattern keeps the length, changes nothing when the pattern is absent, and otherwise rewrites only the first occurrence |
| JsBuiltins.ReplaceFirstRoundTrip | src/components/word-display.tsx:67 | replacing back undoes a replacement when the new character did not occur in the string |
| JsBuiltins.StartsWith | src/lib/config.ts:2 | `startsWith` holds exactly when the prefix fits and agrees with the string character by character |
| JsBuiltins.Trim | src/app/actions.ts:17 | `trim()` yields "" exactly when every character is white space, and otherwise a string that neither starts nor ends with white space |
| JsBuiltins.Split | src/app/actions.ts:17 | `split` yields at least one part; no part holds the separator; every character of a part is from the string |
| JsBuiltins.JoinSplit | src/app/actions.ts:17 | joining the parts of a split with the separator gives back the string |
| JsBuiltins.Or | src/lib/config.ts:10-13 | `a \|\| b` is `a` when `a` is set and non-empty, and `b` otherwise |
| JsBuiltins.NatToString | src/lib/utils.ts:24 | a channel prints as a non-empty run of decimal digits without a leading zero |
| JsBuiltins.NumberOfDigits | src/lib/utils.ts:31 | `Number` of a digit run is 0 exactly when every digit is '0' |
| JsBuiltins.NumberOfNatToString | src/lib/utils.ts:31 | `Number` of the decimal text of a channel gives the channel back |
| Utils.WeightedSumSnoc | src/lib/utils.ts:12 | each code unit multiplies the running hash by 31 and adds the unit |
| Utils.HashStep | src/lib/utils.ts:12-13 | one hash step `(h << 5) - h + c`, then `& itself`, equals `31 h + c` reduced to 32 bits |
| Utils.HashLoopStep | src/lib/utils.ts:10-14 | one loop iteration keeps the hash equal to the reduced polynomial hash of the units seen so far |
| Utils.SeedHash | src/lib/utils.ts:9-14 | the hash of a seed is a signed 32-bit integer |
| Utils.SeededHash | src/lib/utils.ts:9-14 | the loop computes the polynomial hash of the seed's code units reduced to 32 bits, and 0 for the empty seed |
| Utils.SeedHashOfTest | src/lib/utils.ts:9-14 | the hash of "test" is 3556498 |
| Utils.Frac | src/lib/utils.ts:16 | `x - Math.floor(x)` is in [0, 1) and differs from `x` by an integer |
| Utils.Rand | src/lib/utils.ts:15-16 | the seeded draw is in [0, 1) whatever the sine returns |
| Utils.SeededRandom | src/lib/utils.ts:8-17 | `seededRandom` returns the seeded draw of its seed, in [0, 1) |
| Utils.FloorScale | src/lib/utils.ts:37 | `Math.floor(draw * n)` is the integer part of the scaled draw, and an index below `n` when `n > 0` |
| Utils.RandomColor | src/lib/utils.ts:20-25 | every channel of a salted colour is in [0, 255] |
| Utils.RgbString | src/lib/utils.ts:24 | a colour prints in CSS functional notation: it starts with `rgb(` and ends with `)` |
| Utils.GenerateGradientColors | src/lib/utils.ts:19-28 | the angle is in [0, 360) |
| Utils.GradientColorChannels | src/lib/utils.ts:24 | each gradient colour string carries exactly its three channels, in order, each in [0, 255] |
| Utils.RgbStringDigitRuns | src/lib/utils.ts:24 | the digit runs of `rgb(r, g, b)` are exactly `[r, g, b]` |
| Utils.LeadingDigits | src/lib/utils.ts:31 | the length of the longest all-digit prefix: it is all digits, and the next character is not a digit |
| Utils.DigitRuns | src/lib/utils.ts:31 | `match(/\d+/g)` finds no run (`null`) exactly when the string has no digit, and never more runs than characters |
| Utils.DigitRunsSkip | src/lib/utils.ts:31 | a prefix without digits adds no digit run |
| Utils.DigitRunsTake | src/lib/utils.ts:31 | a maximal run of digits contributes its numeric value as the next run |
| Utils.Luminance | src/lib/utils.ts:32 | the luminance exceeds 0.5 exactly when `299 R + 587 G + 114 B > 127500`, and a grey `(v, v, v)` has luminance `v / 255` |
| Utils.GetContrastColor | src/lib/utils.ts:30-34 | the answer is "black" or "white" |
| Utils.ContrastWithoutDigits | src/lib/utils.ts:31 | a colour string without digits takes the [0, 0, 0] default and gives "white" |
| Utils.ContrastFollowsLuminance | src/lib/utils.ts:31-33 | with three or more digit runs, "black" exactly when the luminance of the first three exceeds 0.5 |
| Utils.ContrastFewRuns | src/lib/utils.ts:31-33 | with one or two digit runs a channel is `undefined`, the luminance NaN, and the answer "white" |
| Utils.ContrastOfRgb | src/lib/utils.ts:30-34 | on `rgb(r, g, b)`, "black" exactly when its luminance exceeds 0.5 |
| Utils.ContrastExtremes | src/lib/utils.ts:30-34 | white text on `rgb(0, 0, 0)`, black text on `rgb(255, 255, 255)` |
| Utils.TransparentDigitRuns | src/components/word-display.tsx:56-58 | the transparent colour `rgba(0, 0, 0, 0)` has four zero digit runs |
| Utils.ContrastOfTransparent | src/components/word-display.tsx:53-62 | on the transparent colour the text is white |
| Utils.ItemIndex | src/lib/utils.ts:37 | the seeded index is below the number of items |
| Utils.GetRandomItem | src/lib/utils.ts:36-39 | the picked item is an element of the non-empty list |
| Config.Urlify | src/lib/config.ts:1-6 | the result starts with "http"; a URL that already does is unchanged; any other gets "https://" in front |
| Config.HttpsIsHttp | src/lib/config.ts:2 | the "https" test adds nothing to the "http" test |
| Config.UrlifyIdempotent | src/lib/config.ts:1-6 | urlifying twice is urlifying once |
| Config.GetServerUrl | src/lib/config.ts:8-15 | the first set and non-empty variable among site, Vercel and branch URL, urlified, else `http://localhost:3000`; it always starts with "http" |
| Actions.KeepNonBlank | src/app/actions.ts:17 | filtering never lengthens the list |
| Actions.KeepNonBlankSound | src/app/actions.ts:17 | every kept line is an input line, untrimmed, that does not trim to "" |
| Actions.KeepNonBlankComplete | src/app/actions.ts:17 | every line that does not trim to "" is kept |
| Actions.KeepNonBlankAppend | src/app/actions.ts:17 | the filter distributes over concatenation, so kept lines keep their order |
| Actions.ParseWords | src/app/actions.ts:17 | every parsed word is a whole line of the file, without a newline, holding a non-white-space character |
| Actions.KeepNoBlank | src/app/actions.ts:17 | nothing is kept of lines that are all blank |
| Actions.ParseWordsEmptyIffBlank | src/app/actions.ts:17 | the file yields no word exactly when all of it is white space |
| Actions.LoadedList | src/app/actions.ts:9-23 | `loadWords` resolves to an empty list exactly when nothing is cached and the file was read but is blank |
| Actions.LoadedListNotBlank | src/app/actions.ts:9-23 | no word `loadWords` resolves to is blank, whether it comes from the cache, the file or the fallback list |
| Actions.PickWord | src/app/actions.ts:27 | the pick is defined exactly when the list is non-empty, and is then an element of it |
| Actions.WordCache.constructor | src/app/actions.ts:7 | the cache starts empty, with no file read |
| Actions.WordCache.LoadWords | src/app/actions.ts:9-23 | returns the cached list without reading the file when there is one; otherwise reads once, caches and returns the parsed file, or returns `["Error", "Loading", "Words"]` and leaves the cache empty when the read fails; the cache never holds a blank word |
| Actions.WordCache.GetRandomWord | src/app/actions.ts:25-28 | the word is the pick from the list `loadWords` returns, with the same cache behaviour; it is never blank |
| WordDisplay.DisplayFontName | src/components/word-display.tsx:50 | the displayed family has the entry's length; an entry without '+' is shown as is, and one with '+' gains a space |
| WordDisplay.FontUrlFamily | src/components/word-display.tsx:67 | the URL family has the name's length; a name without a space is used as is, and one with a space gains a '+' |
| WordDisplay.FontUrlNamesEntry | src/components/word-display.tsx:67 | for a catalog entry without spaces, the stylesheet URL names the entry itself |
| WordDisplay.Rotation | src/components/word-display.tsx:63 | the rotation is in [-5, 5) degrees |
| WordDisplay.DeriveStyle | src/components/word-display.tsx:45-63 | angle in [0, 360), text colour "black" or "white", rotation in [-5, 5) |
| WordDisplay.DerivedFontInCatalog | src/components/word-display.tsx:50 | when no catalog entry holds a space, the font the stylesheet link asks for is a catalog entry |
| WordDisplay.ApplyStyle | src/components/word-display.tsx:72-78 | the style update keeps the word and the visibility and replaces the four style fields |
| WordDisplay.ApplyStyleLastWins | src/components/word-display.tsx:72-78 | of two style updates the last wins, and reapplying the current style changes nothing |
| WordDisplay.InitialWord | src/components/word-display.tsx:34 | the prop when it is non-empty, else the query parameter when it is non-empty, else ""; "" exactly when neither is |
| WordDisplay.InitialState | src/components/word-display.tsx:33-40 | the component starts visible with the initial word, which is "" exactly when neither the prop nor the query parameter is set and non-empty |
| WordDisplay.Arrived | src/components/word-display.tsx:85-90 | the new word becomes visible with transparent text, and the other style fields are kept |
| WordDisplay.FadeTimerAfter | src/components/word-display.tsx:111-120 | a timeout is scheduled afterwards only when the word is faded out during a refresh, or when the effect did not re-run and one was already scheduled |
| WordDisplay.WordDisplay.constructor | src/components/word-display.tsx:33-42 | mounting starts visible and idle; an empty initial word starts a fetch; otherwise the word gets its styles |
| WordDisplay.WordDisplay.RefreshDisabled | src/components/word-display.tsx:159 | the button is disabled while the fade timeout is scheduled, and in every stuck state |
| WordDisplay.WordDisplay.UpdateStyles | src/components/word-display.tsx:45-79 | only the four style fields change, to the styles derived for the word |
| WordDisplay.WordDisplay.Refresh | src/components/word-display.tsx:95-99 | nothing happens while the button is disabled; otherwise the word fades out, the refresh starts and the timeout is scheduled |
| WordDisplay.WordDisplay.TimerFires | src/components/word-display.tsx:113-116 | a fetch starts and the refresh ends at once, before the word arrives |
| WordDisplay.WordDisplay.FetchResolves | src/components/word-display.tsx:82-92 | the new word is shown with its derived styles; a scheduled timeout is cleared; `isRefreshing` is left as it was |
| WordDisplay.RefreshCycle | src/components/word-display.tsx:95-120 | click, timeout and arrival show the new word with its styles and enable the button again |
| WordDisplay.OverlappingRefresh | src/components/word-display.tsx:113-118 | from any idle state, click, timeout, click and arrival leave the button disabled with nothing scheduled or in flight |
| WordDisplay.OverlappingRefreshSticks | src/components/word-display.tsx:113-118 | that sequence, right after mounting with a word, leaves the button disabled for good |
| WordDisplay.RefreshDuringFetch | src/components/word-display.tsx:102-118 | a click while one fetch is in flight, followed by its arrival, leaves the button disabled for good |
| WordDisplay.RefreshDuringFirstFetchSticks | src/components/word-display.tsx:102-118 | that happens to a component mounted without a word |
| WordDisplay.FixedWordDisplay.constructor | src/components/word-display.tsx:33-42 | the same mount as the component as written |
| WordDisplay.FixedWordDisplay.RefreshDisabled | src/components/word-display.tsx:159 | the button is disabled while the fade timeout is scheduled, and in every stuck state |
| WordDisplay.FixedWordDisplay.UpdateStyles | src/components/word-display.tsx:45-79 | the same style update as the component as written |
| WordDisplay.FixedWordDisplay.Refresh | src/components/word-display.tsx:95-99 | the same click handler; it keeps the invariant that a refresh always has a timeout or a fetch pending |
| WordDisplay.FixedWordDisplay.TimerFires | src/components/word-display.tsx:113-116 | the timeout only starts the fetch; the refresh stays under way |
| WordDisplay.FixedWordDisplay.FetchResolves | src/components/word-display.tsx:82-92 | the arrival shows the new word with its derived styles, clears any timeout and ends the refresh |
| WordDisplay.FixedNeverStuck | src/components/word-display.tsx:159 | in the corrected component a disabled button always has a timeout or a fetch pending that will enable it |
| WordDisplay.FixedOverlappingRefresh | src/components/word-display.tsx:113-118 | the overlapping clicks end with the new word shown and the button enabled |
| WordDisplay.FixedOverlappingRefreshRecovers | src/components/word-display.tsx:113-118 | the same, right after mounting with a word |
| WordDisplay.FixedRefreshDuringFetch | src/components/word-display.tsx:102-118 | a click during a fetch ends with the new word shown and the button enabled |
| WordDisplay.FixedRefreshDuringFirstFetchRecovers | src/components/word-display.tsx:102-118 | the same, after mounting without a word |

## Left out

- `Math.sin` is a parameter `sine` of every seeded function, and the draw is exact real arithmetic. Only the range of the draw is proved, not its actual values.
- Floating-point rounding: the luminance test is the exact integer comparison `299 R + 587 G + 114 B > 127500`. On colours whose weighted sum is exactly 127500, IEEE rounding of `0.299 * R + ...` may decide the other way.
- `Number` on a digit run longer than 15 or so digits rounds in JavaScript; the model reads the exact value.
- `charCodeAt` on a lone surrogate: Dafny strings cannot hold one, so only well-formed text is modelled.
- `cn` (`src/lib/utils.ts:4-6`) calls the `clsx` and `tailwind-merge` libraries and is only used for class names.
- `siteConfig` (`src/lib/config.ts:16-24`) is a constant record around `getServerUrl`; the environment variables it reads are parameters.
- The file read in `loadWords` (`fs.readFile`, `path.join`, `process.cwd`) is a parameter: the file content, or `None` when the read fails. `console.error` is not modelled.
- Concurrent calls of `loadWords` and the per-request memoisation of React's `cache` are not modelled. Calls are taken one at a time.
- `Math.random()` in `getRandomWord` is a parameter in [0, 1).
- `loadWords` has no fallback for an empty or blank word file: the parsed list is then `[]`, `loadWords` caches nothing, and `getRandomWord` yields `undefined`. The model follows the code: `PickWord` returns `None` (`Actions.LoadedList` states when the list is empty).
- WordDisplay.WordDisplay.FetchResolves requires a non-empty word. The `undefined` that `getRandomWord` yields for a blank word file makes `seededRandom` throw inside `updateStyles`, and that path is not modelled.
- The probe element and `getComputedStyle` (`src/components/word-display.tsx:53-59`) are reduced to the colour string the browser reports, a parameter `bgColor`. With a gradient only, the `background` shorthand resets `background-color`, so browsers should report the transparent `rgba(0, 0, 0, 0)` and the text is then always white (`Utils.ContrastOfTransparent`); not executed.
- The font catalog `src/components/font-list` is not part of this model. It is the constant non-empty sequence `fonts`.
- The Google Fonts `<link>` injection (`src/components/word-display.tsx:66-69`) is modelled only through the family name it puts in the URL (`FontUrlFamily`).
- `router.push` of the `?word=` URL and the rendering of the JSX are not modelled. That includes the font label at line 153, which repeats the `+` replacement.
- The 500 ms delay of the fade timeout is not modelled. Only the order of events is kept; a pending timeout is a flag.
- `src/app/page.tsx` is not part of this model. Both `src/app/page.tsx:2` and `src/components/word-display.tsx:12` import `getRandomWord` from `src/components/actions`, which is not part of this model; the model assumes it is the `getRandomWord` of `src/app/actions.ts`, so a fetched word is a non-blank word of the file.

## Findings

| source | as written | input that shows it | evidently intended | confidence | as-written member | corrected member |
|---|---|---|---|---|---|---|
| src/components/word-display.tsx:113-116 | the timeout calls `fetchNewWord()` without awaiting it and clears `isRefreshing` at once; the word's arrival sets `isVisible` and so clears any newly scheduled timeout | mount with a word; click refresh; let the 500 ms timeout fire; click refresh again before the word arrives; the word arrives. The button is then disabled, and nothing is scheduled or in flight to enable it. A click during the first fetch does the same when the component is mounted without a word, which the page does not do while the word file holds a word. | the refresh ends when the new word has arrived, so the button is enabled again after every refresh | high, not executed | WordDisplay.OverlappingRefreshSticks | WordDisplay.FixedWordDisplay.FetchResolves |
