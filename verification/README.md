# rn-starter-kit: a verified model of its state and validation logic

This project models, in Dafny, the parts of the React Native starter kit that hold
deterministic logic:

- **The notification queue** (`stores/errorStore.ts`). An ordered list of `AppError`
  records. `addError` appends one entry, with its severity defaulting to "error" and
  `autoHide` defaulting to true. It also schedules a 5000 ms expiry for auto-hiding
  entries. `removeError` filters out every entry that carries an id, `clearErrors`
  empties the list, and `getLatestError` reads the tail. Ids are `Date.now()`
  printed in decimal, so two entries added in the same millisecond share an id,
  and one removal deletes both.
- **The notification overlay** (`components/ErrorNotification.tsx`). It shows only
  the head of the queue. While the queue is non-empty it arms a 3000 ms timer that
  removes the head's id, and it maps the severity to a colour and an icon.
- **The loading flag** (`stores/loadingStore.ts`). Two fields that every action
  overwrites. There is no nesting count.
- **The image carousel** (`components/ImageCarousel.tsx`). It holds the current page
  index, the image open in the detail modal and the measured width. Offsets become
  page indices through `Math.round(offset / width)`, and indices become offsets
  through `index * width`. It also decides when the placeholder, captions,
  indicators and counter appear.
- **The form rules** of the sign-up and sign-in screens (`app/auth/register.tsx`,
  `app/auth/login.tsx`). These are `required`, `minLength`, the loose email pattern
  `/\S+@\S+\.\S+/`, the password pattern `/^(?=.*[a-z])(?=.*[A-Z])(?=.*\d)/` and the
  confirmation check. Each is given its meaning under JavaScript's regular
  expression semantics (ECMAScript 2024, section 22.2).

The two stores and the carousel change state in place. They are classes whose
methods are proved against pure functions: `Without` is the filter, `NewError` is
the new record, and `Effect` and `Run` give the loading actions. The lemmas about
those functions state the properties. Timers are explicit expiry events:
`AddError` returns the `Expiry` it schedules, and firing an expiry removes its id.
The overlay's timer is a function of the current queue (`ArmedTimer`), because
React cancels it and re-arms it whenever the queue changes. Clock readings are
parameters.

The code is modelled as written, including two behaviours a reader might not
expect:

- The overlay's 3000 ms timer removes the head whatever its `autoHide` flag says.
  An entry added with `autoHide` false therefore still disappears once it reaches
  the head (`NoAutoHideStillExpires`).
- The carousel does not clamp the page index. An overscrolled offset gives an index
  outside the image list (`OverscrollLeavesRange`), and the counter then reads
  `0 / n` or `n+1 / n`.

## Model

| member | source | states |
|---|---|---|
| `Decimal.NatToString` | stores/errorStore.ts:33 | the id text is a non-empty string of decimal digits without leading zeros, one digit exactly for values below 10 |
| `Decimal.ParseNatToString` | stores/errorStore.ts:33 | parsing the printed clock reading gives the reading back |
| `Decimal.NatToStringInjective` | stores/errorStore.ts:33 | two clock readings print the same text exactly when they are equal |
| `Decimal.IntToStringInjective` | components/ImageCarousel.tsx:155 | the counter's number text, a minus sign then digits, determines the number, negative ones included |
| `ErrorStore.NewError` | stores/errorStore.ts:27-39 | the new record has the decimal clock as id, the message and timestamp given, severity "error" and auto-hide true when omitted, and a 5000 ms duration exactly when it auto-hides |
| `ErrorStore.Without` | stores/errorStore.ts:53-57 | an entry survives the filter exactly when it was there and its id differs, and the queue never grows |
| `ErrorStore.WithoutAppend` | stores/errorStore.ts:55 | the filter works piece by piece, so surviving entries keep their original order |
| `ErrorStore.WithoutAbsent` | stores/errorStore.ts:55 | removing an id that no entry carries changes nothing |
| `ErrorStore.WithoutIdempotent` | stores/errorStore.ts:55 | removing an id twice equals removing it once |
| `ErrorStore.WithoutCommutes` | stores/errorStore.ts:46-50 | removals of two ids, such as two timers firing, give the same queue in either order |
| `ErrorStore.SameClockCollides` | stores/errorStore.ts:33 | two adds in the same millisecond get one id, and one removal of it deletes both new entries and nothing else |
| `ErrorStore.DistinctClocksDistinctIds` | stores/errorStore.ts:33 | adds at different clock readings get different ids |
| `ErrorStore.Store.constructor` | stores/errorStore.ts:25 | the queue starts empty |
| `ErrorStore.Store.AddError` | stores/errorStore.ts:27-51 | exactly one new entry is appended at the tail with earlier entries untouched, and an expiry for its id after 5000 ms is returned exactly when it auto-hides |
| `ErrorStore.Store.RemoveError` | stores/errorStore.ts:53-57 | the new queue is the old queue filtered on the id |
| `ErrorStore.Store.FireExpiry` | stores/errorStore.ts:46-50 | firing a scheduled expiry has exactly the effect of removing its id |
| `ErrorStore.Store.ClearErrors` | stores/errorStore.ts:59-61 | the queue is empty afterwards whatever it held |
| `ErrorStore.Store.GetLatestError` | stores/errorStore.ts:63-66 | the result is the tail entry, absent exactly when the queue is empty, and nothing changes; in a store built by its own operations the entry auto-hides exactly when it carries the 5000 ms duration |
| `LoadingStore.Effect` | stores/loadingStore.ts:14-17 | show sets loading with the given text, hide returns to not loading without text, and set writes both fields as given |
| `LoadingStore.SetLoadingAgrees` | stores/loadingStore.ts:14-17 | `setLoading(true, t)` equals `showLoading(t)`, and `setLoading(false)` equals `hideLoading()` |
| `LoadingStore.SetLoadingFalseKeepsText` | stores/loadingStore.ts:14-15 | `setLoading(false, t)` with a text stops loading but keeps the text, unlike `hideLoading()` |
| `LoadingStore.LastActionWins` | stores/loadingStore.ts:14-17 | after any non-empty run of actions, the state is the one the last action sets |
| `LoadingStore.HideAfterAnything` | stores/loadingStore.ts:16-17 | one `hideLoading` after any number of `showLoading` calls leaves the store idle |
| `LoadingStore.Store.constructor` | stores/loadingStore.ts:12-13 | the store starts not loading, without text |
| `LoadingStore.Store.SetLoading` | stores/loadingStore.ts:14-15 | both fields become exactly the arguments |
| `LoadingStore.Store.ShowLoading` | stores/loadingStore.ts:16 | loading with the given text |
| `LoadingStore.Store.HideLoading` | stores/loadingStore.ts:17 | not loading, text cleared |
| `ErrorNotification.ExpireHead` | components/ErrorNotification.tsx:12-20 | the overlay's expiry removes the head and shortens the queue |
| `ErrorNotification.FireDisplayTimer` | components/ErrorNotification.tsx:12-20 | only the timer armed for the current head can fire, and it removes every entry with the head's id |
| `ErrorNotification.DisplayedIsHead` | components/ErrorNotification.tsx:22-24 | nothing is shown exactly when the queue is empty, otherwise the oldest entry is, and a timer is armed exactly when something is shown |
| `ErrorNotification.AppendKeepsDisplayed` | components/ErrorNotification.tsx:12-24 | entries added later queue behind the shown one and do not change it, and the re-armed timer targets the same id |
| `ErrorNotification.DisplayedIsNotLatest` | components/ErrorNotification.tsx:24 | the overlay shows the oldest entry, not the newest that `getLatestError` returns |
| `ErrorNotification.FirstOther` | components/ErrorNotification.tsx:24 | the index of the first entry with a different id: all before it share the id |
| `ErrorNotification.NextDisplayed` | components/ErrorNotification.tsx:12-24 | after an id is removed, the overlay shows the first entry with another id, in insertion order, or nothing |
| `ErrorNotification.NoAutoHideStillExpires` | components/ErrorNotification.tsx:12-20 | an entry with `autoHide` false is still timed out once it is the head |
| `ErrorNotification.BothTimersAnyOrder` | components/ErrorNotification.tsx:12-20 | the store's timer and the overlay's timer for the head may fire in either order: the second changes nothing |
| `ErrorNotification.DrainsCompletely` | components/ErrorNotification.tsx:12-20 | with nothing added, at most as many overlay expiries as entries empty the queue |
| `ErrorNotification.MappingsDistinguishSeverities` | components/ErrorNotification.tsx:26-54 | each severity gets its own colour and its own icon, so both can be read back |
| `ErrorNotification.UnknownTagFallsBack` | components/ErrorNotification.tsx:36-37 | an unrecognised type is drawn with the error colour and the error icon |
| `ErrorNotification.FreshEntryShown` | components/ErrorNotification.tsx:56-76 | an entry added to an empty queue is drawn with its message and the colour and icon of its severity |
| `ImageCarousel.Round` | components/ImageCarousel.tsx:56 | the result is the integer within half a unit, with halves going up |
| `ImageCarousel.RoundUnique` | components/ImageCarousel.tsx:56 | no other integer lies within that half unit |
| `ImageCarousel.PageIndexNearest` | components/ImageCarousel.tsx:54-58 | the chosen page's offset lies within half a page of the scroll offset |
| `ImageCarousel.PageRoundTrip` | components/ImageCarousel.tsx:54-65 | the scroll event at the offset `scrollToIndex(i)` targets yields index `i` |
| `ImageCarousel.PageIndexInRange` | components/ImageCarousel.tsx:54-58 | an offset between the first and the last page gives the index of an existing image |
| `ImageCarousel.OverscrollLeavesRange` | components/ImageCarousel.tsx:54-58 | there is no clamping: offsets beyond the ends give indices `-1` and `n` |
| `ImageCarousel.PlaceholderIffNoImages` | components/ImageCarousel.tsx:75-83 | the placeholder is rendered exactly for a missing or empty list |
| `ImageCarousel.IndicatorsAndCounter` | components/ImageCarousel.tsx:114-163 | each slide has a caption exactly when titles are on and it has a title; indicators appear exactly when asked for with two or more images, one per image, indicator `i` active exactly when `i` is the current index (none when it is out of range); the counter appears exactly with two or more images and reads the current index over the count; the modal is visible exactly when an image is selected |
| `ImageCarousel.CounterIdentifiesPage` | components/ImageCarousel.tsx:152-158 | two pages of one carousel show the same counter text exactly when they are the same page |
| `ImageCarousel.CounterReads` | components/ImageCarousel.tsx:152-158 | on an index in range the counter reads `index+1 / length` in plain digits |
| `ImageCarousel.CounterExamples` | components/ImageCarousel.tsx:152-158 | the counter reads "5 / 5" on the fifth of five, and "0 / n" after overscrolling to index -1 |
| `ImageCarousel.Carousel.constructor` | components/ImageCarousel.tsx:32-45 | indicators and titles on unless the caller turns them off, index 0, nothing selected, page width the custom width if truthy, else the window width |
| `ImageCarousel.Carousel.HandleLayout` | components/ImageCarousel.tsx:45-52 | the measured width becomes the page width when no custom width is given; with one, the stored width is untouched; index and selection are kept |
| `ImageCarousel.Carousel.HandleScroll` | components/ImageCarousel.tsx:54-58 | the index becomes the page nearest the offset; the stored width and the selection are kept |
| `ImageCarousel.Carousel.ScrollToIndex` | components/ImageCarousel.tsx:60-65 | the target offset is `index * width`, leaves the index alone, and reading it back gives `index` |
| `ImageCarousel.Carousel.OpenImageDetail` | components/ImageCarousel.tsx:67-69 | the image becomes the selection and the modal is visible |
| `ImageCarousel.Carousel.CloseImageDetail` | components/ImageCarousel.tsx:71-73 | the selection is cleared and the modal hidden |
| `ImageCarousel.PressIndicator` | components/ImageCarousel.tsx:142-145 | after pressing indicator `i` and the scroll event that follows, indicator `i` is active and the counter reads `i+1 / n` |
| `Validation.EmailPatternShape` | app/auth/register.tsx:88-92 | the email pattern matches exactly when some '@' follows a non-space character and is followed by a run of non-space characters, then '.', then a non-space character |
| `Validation.EmailPatternInContext` | app/auth/register.tsx:90 | the pattern is unanchored: text around a matching address does not stop the match |
| `Validation.EmailPatternLength` | app/auth/register.tsx:88-92 | a match needs five characters, so the pattern alone rejects the empty field |
| `Validation.EmailPatternExamples` | app/auth/register.tsx:90 | "a@b.c", "a@@.." and "say a@b.c now" pass; "a@b" and "a @b.c" fail |
| `Validation.FirstLine` | app/auth/register.tsx:119 | the prefix before the first line terminator, which ends at a terminator or at the end |
| `Validation.LookaheadFirstLine` | app/auth/register.tsx:119 | each lookahead from `^` succeeds exactly when its class occurs before the first line break |
| `Validation.PasswordPatternAccepts` | app/auth/register.tsx:118-121 | "Abc123" and "aB1" match the password pattern |
| `Validation.PasswordPatternRejects` | app/auth/register.tsx:118-121 | "abc123", which has no capital, does not match |
| `Validation.PasswordPatternFirstLineOnly` | app/auth/register.tsx:119 | "abcdef\nA1" does not match: its only capital follows a line break, which `.*` cannot cross |
| `RegisterForm.NameValidIff` | app/auth/register.tsx:63-69 | a name passes exactly when it has at least two characters |
| `RegisterForm.PasswordValidIff` | app/auth/register.tsx:112-122 | a password passes exactly when it has six characters or more and a lower-case letter, a capital and a digit on its first line |
| `RegisterForm.ConfirmPasswordValidIff` | app/auth/register.tsx:141-144 | the confirmation passes exactly when it equals a non-empty watched password |
| `RegisterForm.FormValidConfirmation` | app/auth/register.tsx:34 | in a valid form the confirmation itself satisfies the password rules |
| `RegisterForm.RegisterExamples` | app/auth/register.tsx:60-157 | a sample sign-up passes; a mismatched confirmation, the three- and five-character passwords "aB1" and "aB1cd", and a capital after a line break fail |
| `LoginForm.EmailRulesAgree` | app/auth/login.tsx:56-62 | sign-in and sign-up accept the same emails, and `required` adds nothing to the pattern |
| `LoginForm.RegisterPasswordPassesLogin` | app/auth/login.tsx:81-87 | every password the sign-up rules accept passes the sign-in rules |
| `LoginForm.LoginPasswordNotRegister` | app/auth/login.tsx:81-87 | the converse fails: "aaaaaa" passes sign-in and fails sign-up |
| `LoginForm.RegisteredCredentialsLogIn` | app/auth/login.tsx:53-100 | the email and password of a valid sign-up pass the sign-in form |

## Left out

- `ImageCarousel.Carousel.HandleScroll`: it requires a positive page width. The source divides by a zero width too, and then gets `NaN` or an infinity from `Math.round`. IEEE floating point is not modelled: offsets and widths are reals.
- `ImageCarousel.Round`: the negative zero that `Math.round` returns for offsets just below zero is the integer 0 here.
- String lengths count characters (Unicode scalar values). JavaScript counts UTF-16 code units, so a character outside the Basic Multilingual Plane counts twice for `minLength` in the source. `\S` and `.` decide the same way on both views, because surrogate halves are neither spaces nor line terminators.
- The `\s` class follows the Unicode space separators (category Zs) as currently defined. An engine built on another Unicode version may differ.
- react-hook-form internals are not modelled: which message shows first, when validation runs, the `handleSubmit` gating, and the skipping of `minLength` and `pattern` on an empty value (every field here is also `required`, so the verdict is the same).
- Real time is not modelled: timers are expiry events that may fire in any order. Cancelling timers on unmount is not modelled.
- The restart of the overlay's countdown is not modelled. Every change to the queue re-arms the 3000 ms timer from zero: an append, and also a removal that removes nothing, because `filter` builds a new array. Entries arriving less than 3 s apart can therefore keep the head on screen indefinitely. `ArmedTimer` is an untimed id and delay, so it cannot show this.
- The component props (`images`, `width`, `showIndicators`, `showTitles`) are fixed for a mount. Renders with new props are not modelled. The defaults of the two flags are modelled: the constructor takes them as optional. `height` only sizes the slides and is not modelled.
- The native scroll view is not modelled: the animation toward `scrollTo`'s target and the intermediate scroll events it produces. Each scroll event is one `HandleScroll` call.
- Styles, layout, fonts, animations, the modal's content, the status bar and the dark palette are not modelled. Colours are the light palette's constants.
- The severity type in TypeScript allows only four values. Any other string reaches the overlay only through a cast. The colour and icon mappings take the raw string, which is how the fallback is modelled.
- Screens, navigation, the auth context, the HTTP client and the services are not modelled: they are asynchronous glue over storage and the network.
