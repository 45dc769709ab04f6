# Fitness coach front-end: a Dafny model of its rule-based core

This project models the parts of the fitness-coaching web front-end that carry
rules rather than markup, and proves properties of them:

- **The onboarding wizard** (`app/auth/onboarding/page.tsx`), in `onboarding.dfy`.
  The class `OnboardingPage` holds the step cursor (1..7), the answers record
  and the loading flag. Its methods are the page's handlers. Two pure functions
  give the updates that `setData` applies: `Set` for `updateData` and
  `ToggleField` for `toggleArrayValue`. `StepComplete` is the rule of
  `canProceed` for any step, `CanProceed` applies it to the page's state, and
  `NavigationControls` gives the enable state of the back, next and complete
  buttons. The lemmas cover the toggle algebra and the table of step rules.
  They also show that a session driven only through enabled buttons reaches
  "Slutför" with all seven steps complete.
- **The helpers of `lib/utils.ts`**, in `utils.dfy`: duration, height and
  calorie text, percentage, clamp, truncate, capitalize and the BMI classes.
  `numerals.dfy` models how a template literal prints an integer. It also
  holds a parser that reads the number back, which is the partner for the
  round-trip lemmas.
- **The progress components** (`components/ui/progress-bar.tsx`), in
  `progress.dfy`. It covers the clamped percentage that the bar and the ring
  share, the indeterminate overrides, the displayed texts, and the
  weight/calorie/macro presets.
- **The dashboard shell** (`app/dashboard/layout.tsx`), in `dashboard.dfy`.
  It covers the navigation table, the active-route rule and the bottom bar's
  four items. The class `DashboardLayout` holds the two menu flags, which
  route changes and clicks update.

`wrappers.dfy` holds the `Option` type.

Notes on the model:

- JavaScript numbers are `int` for minutes, heights and lengths, and `real`
  (exact arithmetic) for percentages, BMI values and clamping.
- The fields `language`, `gender` and `preferences` are enumerations. Each
  value carries its string code, and `''` is the unanswered choice. This
  follows the page's own `OnboardingData` interface
  (`app/auth/onboarding/page.tsx:8-20`), not the differently typed record in
  `types/auth.ts`.
- Two identical toggles do not always cancel. The code
  (`app/auth/onboarding/page.tsx:47-54`) removes every copy of a present value
  but appends an absent one at the end. So two toggles restore the list
  exactly only for an absent value. For a present value the values
  come back, but the toggled one moves to the end. The model follows the
  code: see `ToggleTwiceAbsent`, `ToggleTwicePresent`, `ToggleTwicePermutes`
  and the concrete `ToggleTwiceReorders`.
- The handlers do not check `canProceed`. Gating exists only in the buttons'
  `disabled` conditions. The model keeps it that way: `HandleNext` moves
  whenever the step is below 7, and the gating lemmas are stated about
  `NavigationControls`.

## Model

| member | source | states |
|---|---|---|
| `Onboarding.InitialData` | app/auth/onboarding/page.tsx:29-41 | The mount state: language `sv`, country `Sverige`, every other text and choice `''`, both lists empty |
| `Onboarding.InitialOnlyFirstStep` | app/auth/onboarding/page.tsx:29-67 | On a fresh form the rule of step s holds iff s = 1 |
| `Onboarding.Get` | app/auth/onboarding/page.tsx:50 | `prev[field]`: the value read always has the type the record declares for that key, and it is a list exactly for `goals` and `workoutTypes` |
| `Onboarding.GetDeterminesRecord` | app/auth/onboarding/page.tsx:8-20 | Two records that agree on all eleven keys are equal, so frame conditions stated per key describe the whole record |
| `Onboarding.Set` | app/auth/onboarding/page.tsx:43-45 | `{...prev, [field]: value}`: the written field holds the new value and every other field keeps its old value |
| `Onboarding.SetIdempotent` | app/auth/onboarding/page.tsx:43-45 | Writing the same value to a field twice gives the same record as writing it once |
| `Onboarding.RemoveAll` | app/auth/onboarding/page.tsx:51 | The filter keeps exactly the values other than `v`, and it shortens the list whenever `v` occurs |
| `Onboarding.RemoveAllCounts` | app/auth/onboarding/page.tsx:51 | The filter removes every copy of `v` and keeps the multiplicity of every other value |
| `Onboarding.RemoveAllAppend` | app/auth/onboarding/page.tsx:51 | The filter distributes over concatenation, so survivors keep their original order |
| `Onboarding.RemoveAllAbsent` | app/auth/onboarding/page.tsx:51 | Filtering out an absent value returns the list unchanged |
| `Onboarding.Toggle` | app/auth/onboarding/page.tsx:50-52 | As a set, the result is the list with `v`'s membership flipped. An absent `v` is appended at the end; a present `v` is filtered out (every copy, by `RemoveAll`), which shortens the list |
| `Onboarding.ToggleKeepsNoDuplicates` | app/auth/onboarding/page.tsx:47-54 | Toggling a duplicate-free list never creates a duplicate |
| `Onboarding.ToggleTwiceAbsent` | app/auth/onboarding/page.tsx:47-54 | Two toggles of an absent value restore the list exactly |
| `Onboarding.ToggleTwicePresent` | app/auth/onboarding/page.tsx:47-54 | Two toggles of a present value give the filtered list plus one `v` at the end, with the same set of values as before |
| `Onboarding.ToggleTwicePermutes` | app/auth/onboarding/page.tsx:47-54 | In a duplicate-free list, two toggles of a present value give a permutation of the original |
| `Onboarding.ToggleTwiceReorders` | app/auth/onboarding/page.tsx:47-54 | Toggling the first goal of `[lose_weight, build_muscle]` twice gives `[build_muscle, lose_weight]`, so order is not restored |
| `Onboarding.ToggleField` | app/auth/onboarding/page.tsx:47-54 | The toggled list field holds the toggled list, and every other field (the other list and all scalars) is unchanged |
| `Onboarding.StepComplete` | app/auth/onboarding/page.tsx:56-67 | `canProceed`'s rule holds only for steps 1..7 |
| `Onboarding.StepCompleteMeansAnswered` | app/auth/onboarding/page.tsx:56-67 | For each step in 1..7, the rule holds iff every field in the step's table entry is answered. The entries are language; gender and age; weight and height; country and address; goals; workout types; preferences |
| `Onboarding.StepCompleteLocal` | app/auth/onboarding/page.tsx:56-67 | A step's rule reads no field outside that step's table entry |
| `Onboarding.FirstStepAlwaysComplete` | app/auth/onboarding/page.tsx:58 | `language !== ''` always holds, since the language is always `sv` or `en` |
| `Onboarding.AnsweringKeepsStepsComplete` | app/auth/onboarding/page.tsx:43-67 | Writing an answered (non-empty) value to any field never makes a complete step incomplete |
| `Onboarding.ShownFields` | app/auth/onboarding/page.tsx:101-442 | Each step renders the fields its rule reads, and no field that the rule of any other step reads; the optional allergies field is rendered on step 7 and on no other step |
| `Onboarding.NavigationControls` | app/auth/onboarding/page.tsx:466-503 | Previous is enabled iff step ≠ 1. The forward slot is "Slutför" iff step = 7, enabled iff `canProceed() && !isLoading`; otherwise it is "Nästa", enabled iff `canProceed()` |
| `Onboarding.EnabledNextMovesForward` | app/auth/onboarding/page.tsx:495-497 | An enabled "Nästa" appears only on steps 1..6, so pressing it always advances |
| `Onboarding.EnabledCompleteNeedsPlan` | app/auth/onboarding/page.tsx:476-479 | An enabled "Slutför" implies step 7, a chosen plan and no save in flight |
| `Onboarding.EditKeepsSession` | app/auth/onboarding/page.tsx:101-442 | Editing a field rendered on the current step keeps every earlier step complete |
| `Onboarding.ToggleKeepsSession` | app/auth/onboarding/page.tsx:47-54 | Toggling a value of a list rendered on the current step keeps every earlier step complete |
| `Onboarding.NextKeepsSession` | app/auth/onboarding/page.tsx:495-497 | Pressing an enabled "Nästa" keeps "cursor in 1..7 and all earlier steps complete" |
| `Onboarding.PreviousKeepsSession` | app/auth/onboarding/page.tsx:467-469 | Pressing "Tillbaka" keeps that invariant |
| `Onboarding.CompleteMeansAllStepsComplete` | app/auth/onboarding/page.tsx:476-479 | In a session kept by those lemmas, an enabled "Slutför" implies all seven step rules hold |
| `Onboarding.OnboardingPage.CanProceed` | app/auth/onboarding/page.tsx:56-67 | `canProceed()` holds only when the cursor is in 1..7, and there exactly when every field the current step asks for is answered |
| `Onboarding.OnboardingPage.constructor` | app/auth/onboarding/page.tsx:25-41 | Step 1, not loading, answers = `InitialData()` |
| `Onboarding.OnboardingPage.UpdateData` | app/auth/onboarding/page.tsx:43-45 | The answers become `Set(old, f, v)`; step and loading flag unchanged |
| `Onboarding.OnboardingPage.ToggleArrayValue` | app/auth/onboarding/page.tsx:47-54 | The answers become `ToggleField(old, f, v)`; step and loading flag unchanged |
| `Onboarding.OnboardingPage.HandleNext` | app/auth/onboarding/page.tsx:69-73 | The step goes up by one iff it was below 7 (no-op at 7), so it stays in 1..7; answers and flag unchanged |
| `Onboarding.OnboardingPage.HandlePrevious` | app/auth/onboarding/page.tsx:75-79 | The step goes down by one iff it was above 1 (no-op at 1); the answers are kept |
| `Onboarding.OnboardingPage.BeginComplete` | app/auth/onboarding/page.tsx:82 | The loading flag is raised, so on step 7 "Slutför" is disabled while the save is awaited; answers and step unchanged |
| `Onboarding.OnboardingPage.FinishComplete` | app/auth/onboarding/page.tsx:84-98 | After the save the flag is false on success and on failure. The page navigates to `/dashboard` only on success; answers and step are unchanged |
| `Onboarding.OnboardingPage.HandleComplete` | app/auth/onboarding/page.tsx:81-99 | The whole handler never changes the answers or the step, and it leaves `isLoading` false whichever way the save ends |
| `Numerals.IntToString` | lib/utils.ts:89-96 | `${n}` for an integer: starts with "-" iff n < 0, contains no space, and after the sign is a canonical numeral (digits only, no leading zero, no "-0") |
| `Numerals.NatToStringRoundTrip` | lib/utils.ts:89-96 | The digits printed for n ≥ 0 read back as n |
| `Numerals.ParseIntRoundTrip` | lib/utils.ts:89-96 | Parsing `${n}` gives back n for every integer n |
| `Utils.Round` | lib/utils.ts:107 | `Math.round`: the integer within half a unit below (inclusive) or above (exclusive) of x |
| `Utils.FormatDuration` | lib/utils.ts:87-97 | The text ends in " min" iff m < 60 or m is not a whole number of hours, and in " tim" iff m ≥ 60 with m % 60 = 0. Below 60 it is exactly "<m> min"; for a whole number of hours h it is exactly "<h> tim" |
| `Utils.FormatDurationRoundTrip` | lib/utils.ts:87-97 | Parsing the text gives back m, for every integer m (negative ones included) |
| `Utils.FormatDurationSplit` | lib/utils.ts:91-96 | For m ≥ 60, given any h and 0 < r < 60 with h·60 + r = m, the text is "<h> tim <r> min" |
| `Utils.CalculatePercentage` | lib/utils.ts:105-108 | 0 when total is 0. Otherwise the result lies within half a unit of value/total·100 |
| `Utils.PercentageOfWhole` | lib/utils.ts:105-108 | calculatePercentage(t, t) = 100 for t ≠ 0 |
| `Utils.PercentageOfNothing` | lib/utils.ts:105-108 | calculatePercentage(0, t) = 0 for every t |
| `Utils.PercentageBounds` | lib/utils.ts:99-108 | For 0 ≤ value ≤ total with total > 0, the result is in 0..100 |
| `Utils.PercentageUnclamped` | lib/utils.ts:99-108 | The result is not clamped: 150 of 100 gives 150 and −50 of 100 gives −50, outside the documented 0–100 |
| `Utils.Clamp` | lib/utils.ts:117-119 | The result is ≤ max. When min ≤ max it lies in [min, max] and equals the value when the value is inside. Values below min give min, values above max give max, and min > max gives max |
| `Utils.ClampIdempotent` | lib/utils.ts:117-119 | Clamping twice equals clamping once |
| `Utils.Truncate` | lib/utils.ts:185-188 | A string no longer than the limit is returned unchanged. Otherwise the result ends in "...". For a limit n ≥ 0 it has length n + 3 and starts with s[..n]. A negative limit keeps max(len(s) + n, 0) characters, as `slice` counts from the end |
| `Utils.TruncateIdempotent` | lib/utils.ts:185-188 | For a non-negative limit, truncating twice equals truncating once |
| `Utils.UpperAscii` | lib/utils.ts:176 | The result is never a lower-case ASCII letter. Lower-case letters map to their upper-case partners; everything else is unchanged |
| `Utils.Capitalize` | lib/utils.ts:175-177 | Same length ("" stays ""). The first character is upper-cased and the rest is unchanged |
| `Utils.CapitalizeIdempotent` | lib/utils.ts:175-177 | Capitalizing twice equals capitalizing once |
| `Utils.GetBMICategory` | lib/utils.ts:46-51 | Each of the four labels is returned iff bmi lies in its range: < 18.5, [18.5, 25), [25, 30), ≥ 30 |
| `Utils.BMICategoryMonotone` | lib/utils.ts:46-51 | A larger BMI never gets a lower class |
| `Utils.BMICategoryBoundaries` | lib/utils.ts:47-50 | 18.5, 25 and 30 belong to the higher class |
| `Utils.FormatHeight` | lib/utils.ts:26-28 | The text is exactly the integer's canonical numeral followed by " cm", and the integer can be read back |
| `Utils.FormatCalories` | lib/utils.ts:195-197 | The text is exactly the rounded value's canonical numeral followed by " kcal", and that value can be read back |
| `Utils.FormatMacros` | lib/utils.ts:204-206 | The text is exactly the rounded value's canonical numeral followed by "g", and that value can be read back |
| `Progress.BarPercentage` | components/ui/progress-bar.tsx:62 | Always in [0, 100] and 0 when indeterminate. It is 100 when value/max ≥ 1, 0 when value/max ≤ 0, and value/max·100 in between |
| `Progress.RoundedPercentage` | components/ui/progress-bar.tsx:63 | The rounded percentage is an integer in 0..100, within half a unit of the percentage |
| `Progress.DisplayValue` | components/ui/progress-bar.tsx:63 | "Laddar..." when indeterminate. Otherwise exactly the canonical numeral of the rounded percentage followed by "%", which reads back as that percentage |
| `Progress.CirclePercentage` | components/ui/progress-bar.tsx:144 | 25 when indeterminate. Otherwise it equals the bar's clamped percentage |
| `Progress.CircleValueText` | components/ui/progress-bar.tsx:212 | "..." when indeterminate. Otherwise exactly the canonical numeral of the rounded percentage, with no "%", which reads back as that percentage |
| `Progress.CircleCenterText` | components/ui/progress-bar.tsx:211-214 | The text ends in "%" iff `showPercentage`; the part before it is the value text |
| `Progress.IndeterminateCircleText` | components/ui/progress-bar.tsx:211-214 | An indeterminate ring with `showPercentage` reads "...%" |
| `Progress.WeightValue` | components/ui/progress-bar.tsx:242-247 | The bar value abs(target) − abs(current − target) never exceeds the bar max, and equals it iff current = target |
| `Progress.WeightMax` | components/ui/progress-bar.tsx:243-248 | The bar max abs(target) is non-negative, and 0 only for a zero target |
| `Progress.WeightPercentage` | components/ui/progress-bar.tsx:242-248 | The weight bar's percentage lies in [0, 100] |
| `Progress.WeightFullIffOnTarget` | components/ui/progress-bar.tsx:242-248 | For a non-zero target the weight bar shows 100% iff current = target |
| `Progress.WeightEmptyWhenFar` | components/ui/progress-bar.tsx:242-248 | Once abs(current − target) ≥ abs(target), the weight bar shows 0% |
| `Progress.CalorieVariant` | components/ui/progress-bar.tsx:285-286 | With p = consumed/target·100, the variant is danger iff p > 110, warning iff 90 < p ≤ 110, and success iff p ≤ 90 |
| `Progress.CalorieVariantMonotone` | components/ui/progress-bar.tsx:285-286 | For a positive target, eating more never gives a less severe variant |
| `Progress.MacroLabel` | components/ui/progress-bar.tsx:310-314 | Every macro has a non-empty label |
| `Progress.MacroVariant` | components/ui/progress-bar.tsx:316-320 | No macro uses the default or the danger colour |
| `Progress.MacroTables` | components/ui/progress-bar.tsx:310-320 | protein maps to success/"Protein", carbs to warning/"Kolhydrater", fat to info/"Fett", and both maps are injective |
| `Dashboard.IsActiveRoute` | app/dashboard/layout.tsx:55-60 | `/dashboard` is active iff the pathname is exactly `/dashboard`. Every other href is active iff it is a string prefix of the pathname |
| `Dashboard.PrefixIgnoresSegments` | app/dashboard/layout.tsx:59 | `/dashboard/mealsX` activates the "Mat" item, since there is no segment boundary check |
| `Dashboard.NavItems` | app/dashboard/layout.tsx:22-29 | Six items, the overview `/dashboard` first; every href starts with `/dashboard`, and no two items share an href or a label |
| `Dashboard.HrefsPrefixFree` | app/dashboard/layout.tsx:22-29 | No two non-overview hrefs of the table are prefixes of one another |
| `Dashboard.AtMostOneActive` | app/dashboard/layout.tsx:55-60 | For every pathname, at most one of the six navigation items is active |
| `Dashboard.BottomNavItems` | app/dashboard/layout.tsx:275 | The bottom bar shows exactly the first four items, in order, and neither Profil nor Prenumeration |
| `Dashboard.DashboardLayout.constructor` | app/dashboard/layout.tsx:36-37 | Both menus start closed |
| `Dashboard.DashboardLayout.Navigate` | app/dashboard/layout.tsx:40-44 | A changed pathname closes both menus; an unchanged one changes nothing |
| `Dashboard.DashboardLayout.Click` | app/dashboard/layout.tsx:151-210 | The hamburger flips the mobile menu and the overlay closes it. The avatar flips the profile menu without reaching the document listener. The overlay panel changes nothing. The overlay and its panel can only be clicked while the mobile menu is open (lines 208-210). Every other click reaches the listener (lines 48-50) and closes the profile menu |
| `Dashboard.ClickClosesProfileMenu` | app/dashboard/layout.tsx:46-50 | While the mobile menu is closed, every click except on the avatar closes the profile menu; only the hamburger opens the mobile menu |
| `Dashboard.ProfileMenuOpensOnlyFromAvatar` | app/dashboard/layout.tsx:173-176 | From a closed profile menu, a click opens it iff the click was on the avatar |

## Left out

- Rendering: the JSX, the Tailwind class strings, the icons, and `cn` (`lib/utils.ts:8-10`), which delegates to the `clsx` and `tailwind-merge` libraries. These are presentation only.
- `handleComplete`'s effects: the 2-second timer, `router.push` and `console.error`. How the `try` block ends is the parameter `SaveOutcome`, and navigation is the returned destination. The model runs the handler's two halves in sequence. A second click arriving before React re-renders is not modelled.
- The onboarding save: the page never saves the answers (`saveOnboardingData` is a commented-out TODO at `app/auth/onboarding/page.tsx:85-86`), and neither does the model. `SaveOutcome.Failed` stands for the failure of that intended save; the `try` block as written only awaits a timer and navigates, so the code does not reach the `catch` path that `Failed` models.
- Onboarding.OnboardingPage.UpdateData: requires a value of the field's declared type (`Fits`). The untyped `value: any` would accept anything, but the page never passes other values. `Set` has the same requirement.
- The wizard header's step percentage (`app/auth/onboarding/page.tsx:449-455`) is display only.
- `formatWeight` (uses `toFixed`) and `calculateBMI` (floating-point division): binary floating point is not modelled.
- `formatDate` and `formatTime`: locale-dependent `Date` APIs.
- `generateId`: depends on `Math.random`.
- `debounce` and `sleep`: timers.
- `isMobile`: reads `window`.
- Utils.FormatDuration: takes whole minutes. JavaScript would print a fractional number with decimals.
- Utils.FormatHeight: takes a whole number of centimetres, for the same reason.
- Utils.PercentageBounds: the documented result range 0–100 (`lib/utils.ts:103`) holds only for 0 ≤ value ≤ total with total > 0. The code does not clamp, and the model follows the code (`PercentageUnclamped`).
- Utils.Truncate: takes an integral length. `slice` would truncate a fractional one.
- Utils.Truncate: lengths count Unicode characters, while JavaScript's `length` and `slice` count UTF-16 code units. A character outside the Basic Multilingual Plane (an emoji, say) counts once here and twice there, and the cut never splits it here, while `truncate("😀", 1)` in JavaScript keeps half of its surrogate pair. Utils.Capitalize likewise treats such a character as one.
- Numerals.IntToString: integers are exact and unbounded. JavaScript prints numbers of magnitude 1e21 and above in exponent notation (`1e+21`) and loses precision above 2^53; neither is modelled, so the formatting helpers' round trips hold only for numbers below those sizes in JavaScript.
- Progress.CircleCenterText: models only the value span. The ring shows it only when no `children` are passed and `showValue` is set (`components/ui/progress-bar.tsx:208-210`); that guard and the optional label span are not modelled.
- Utils.UpperAscii: upper-cases ASCII letters only. `toUpperCase` also maps other scripts, sometimes to several characters.
- Utils.Round and the percentages: computed over exact reals, so floating-point rounding before `Math.round` is not modelled.
- Progress.BarPercentage: requires `max != 0`. JavaScript would compute NaN or Infinity there. CirclePercentage, DisplayValue, CalorieVariant and the weight lemmas require the same.
- `CircularProgress` geometry (radius, circumference, dash offset): uses π and floating point.
- `WorkoutProgress` (`components/ui/progress-bar.tsx:257-275`): passes its counts straight to the bar, so `BarPercentage` covers it.
- The colour and size class tables of the progress components: presentation only.
- The dashboard's Link navigation, the profile dropdown's contents and the page content: rendering and routing are outside the model.
- A Link click inside the mobile panel changes the pathname. That is `Navigate`; the click alone is `Click(OverlayPanel)`.
