# Listing submission form — a Dafny model

This project models the listing page of a two-page marketing site
(`src/pages/Index.tsx`). The page holds a four-field form (name, website,
description, contact number). It validates the fields in the browser, inserts one
row into a hosted `listings` table, and then either moves on to the thank-you page
or gives the form back for another try. While a submission is in progress, an
overlay steps through four progress messages.

The model has four modules, one per concern of that file:

- `Patterns` (`patterns.dfy`) holds the two regular expressions. The website pattern
  `^(https?:\/\/)?(www\.)?[a-zA-Z0-9-]+(\.[a-zA-Z]{2,})+` and the contact pattern
  `^\d{10,15}$` are each written as a predicate that computes the engine's verdict from
  greedy character runs; for the website, over the six ways of taking the optional
  scheme and `www.` groups, looking only at the label, the first dot and two letters.
  The website pattern is also given as the language the expression denotes, anchored at
  the start only, and a lemma proves that the two reach the same verdict on every string.
- `Validation` (`validation.dfy`) holds the options passed to `register(...)` for each
  field. It also holds the order in which react-hook-form applies them: `required`,
  then `minLength`, then `pattern`, stopping at the first failure. It states what each
  field accepts and when the whole form is submitted.
- `Submission` (`submission.dfy`) holds the `Index` component as a class. Its fields
  are the form values and errors, the `isSubmitting` and `showSuccess` flags, the
  current route, the log of insert requests, and the number of error toasts. `Submit`
  models `handleSubmit(onSubmit)` and `Press` models the submit button. The row sent to
  the store is a map from column name to value.
- `Loading` (`loading.dfy`) holds the `LoadingSequence` overlay. It is a saturating step
  counter over four messages, advanced once per interval tick, with the stage each
  message is drawn in.

The store's answer to the insert (stored or error) is a parameter of `Submit`,
`Press` and `OnSubmit`. The 4000 ms wait after a stored insert is a single step that
changes nothing. The 1000 ms interval is the `Tick` method.

## Model

| member | source | states |
|---|---|---|
| `Patterns.Run` | src/pages/Index.tsx:233 | The count a greedy character-class repetition takes is the length of the longest prefix in that class: every character before it is in the class, and the next one (if any) is not. |
| `Patterns.PhoneMatches` | src/pages/Index.tsx:282 | The engine's verdict on `^\d{10,15}$`: the greedy digit run, capped at 15, is at least 10 long and reaches the end of the input. Pinned down by `PhoneMatchesExactly`. |
| `Patterns.PhoneMatchesExactly` | src/pages/Index.tsx:282 | The engine's run of `^\d{10,15}$` accepts a string exactly when it has 10 to 15 characters and every one is an ASCII digit 0-9. |
| `Patterns.PhoneDigitWindow` | src/pages/Index.tsx:282 | For an all-digit string the verdict depends on its length alone: accepted iff the length is between 10 and 15 inclusive. |
| `Patterns.PhoneRejectsNonDigit` | src/pages/Index.tsx:282 | A single character that is not an ASCII digit, at any position, makes the contact number fail. |
| `Patterns.PhoneAcceptedExamples` | src/pages/Index.tsx:282 | 10 digits and 15 digits are accepted. |
| `Patterns.PhoneRejectedExamples` | src/pages/Index.tsx:282 | 9 digits, 16 digits, and a leading `+` are rejected. |
| `Patterns.HostMatches` | src/pages/Index.tsx:233 | `[a-zA-Z0-9-]+(\.[a-zA-Z]{2,})+` at the start of a string: a non-empty greedy label run, then a dot and two letters, with nothing after them looked at. Pinned down, with the groups before it, by `WebsiteMatchesIsRegex`. |
| `Patterns.MatchesAfter` | src/pages/Index.tsx:233 | The optional groups took exactly the given prefix and the host part matches right after it. Pinned down by `WebsiteMatchesIsRegex`. |
| `Patterns.WebsiteMatches` | src/pages/Index.tsx:233 | The verdict of `value.match` on the website pattern: for one of the six ways of taking the optional scheme and `www.` groups, the host part matches after them. Pinned down by `WebsiteMatchesIsRegex` (both directions against the pattern's language). |
| `Patterns.WebsiteMatchesIsRegex` | src/pages/Index.tsx:233 | The engine's matcher (greedy label, one dot and two letters, after one of the six ways of taking the optional scheme and `www.` groups) accepts a string exactly when some prefix of it is in the full language of the pattern, including repeated `(\.[a-zA-Z]{2,})+` groups. Both directions are proved. |
| `Patterns.WebsiteShapeAccepted` | src/pages/Index.tsx:233 | Any string that starts with an optional `http://` or `https://`, an optional `www.`, a non-empty run of `[a-zA-Z0-9-]`, a dot and two ASCII letters is accepted, whatever follows. |
| `Patterns.WebsiteSuffixKeepsMatch` | src/pages/Index.tsx:233 | Because the pattern is not anchored at the end, appending any text to an accepted website keeps it accepted. |
| `Patterns.WebsiteNeedsDotAndLetters` | src/pages/Index.tsx:233 | Every accepted website holds a `.` followed by two ASCII letters, after at least one character. |
| `Patterns.WebsiteWithSchemeExample` | src/pages/Index.tsx:233 | `https://example.com` is accepted. |
| `Patterns.WebsiteBareExample` | src/pages/Index.tsx:233 | `example.co` is accepted. |
| `Patterns.WebsiteWithWwwExample` | src/pages/Index.tsx:233 | `www.example.io` is accepted. |
| `Patterns.WebsiteTrailingTextExample` | src/pages/Index.tsx:233 | `example.co/x` is accepted: trailing text after the matched host is not checked. |
| `Patterns.WebsiteWithoutDotExample` | src/pages/Index.tsx:233 | `example` (no dot) is rejected. |
| `Validation.CheckField` | src/pages/Index.tsx:211-285 | A field has no error exactly when its value is non-empty, meets the minimum length if one is declared, and matches the pattern if one is declared. An empty value gets the field's required message. Any other error is one of the field's declared messages. |
| `Validation.Validate` | src/pages/Index.tsx:197-285 | `handleSubmit` checks every input against its own options and reports all failures at once: the name has no error iff it is non-empty, the website iff it is non-empty and matches its pattern, the description iff it has at least 20 characters, and the contact number iff it is non-empty and matches its pattern. |
| `Validation.Accepted` | src/pages/Index.tsx:197 | `handleSubmit` calls `onSubmit` only when no input has an error. Pinned down by `AcceptedExactly` (the four field conditions) and `EmptyInputBlocks`. |
| `Validation.NameVerdict` | src/pages/Index.tsx:211 | A name passes iff it is non-empty. An empty name gets "Name is required". |
| `Validation.WebsiteVerdict` | src/pages/Index.tsx:230-236 | A website passes iff some prefix of it is in the pattern's language. A non-empty value that fails gets "Please enter a valid URL". |
| `Validation.AboutVerdict` | src/pages/Index.tsx:254-260 | A description passes iff it has at least 20 characters. Every non-empty description shorter than 20 gets the minimum-length message. Length 0 gets "Description is required". |
| `Validation.ContactVerdict` | src/pages/Index.tsx:279-285 | A contact number passes iff it is 10 to 15 ASCII digits. A non-empty value of another shape gets "Please enter a valid phone number". |
| `Validation.AcceptedExactly` | src/pages/Index.tsx:197 | `handleSubmit` lets the form through exactly when all four field conditions hold, each judged on its own value. |
| `Validation.EmptyInputBlocks` | src/pages/Index.tsx:211-285 | If any field is empty, the form is not submitted, and each empty field reports its own required message. |
| `Validation.VerdictsAreLocal` | src/pages/Index.tsx:211-285 | Each field's verdict depends only on that field's value. |
| `Submission.InsertRow` | src/pages/Index.tsx:158-163 | The inserted row has exactly the keys `name`, `website`, `about`, `contact_number`. The first three hold the matching form values, and `contact_number` holds `contactNumber`. |
| `Submission.RowRoundTrip` | src/pages/Index.tsx:158-163 | The mapping loses nothing: reading the row back gives the form values. Every row with exactly those keys is the image of its read-back values. |
| `Submission.ListingForm.constructor` | src/pages/Index.tsx:150-152 | The page starts with empty values, no errors, both flags false, on route `/`, and with nothing sent. |
| `Submission.ListingForm.Edit` | src/pages/Index.tsx:206-285 | Typing into the registered inputs replaces the form values and nothing else, and the invariant is kept. |
| `Submission.ListingForm.SubmitDisabled` | src/pages/Index.tsx:301 | `disabled={isSubmitting}`. Its effect is pinned down by `Press`: a press while it holds changes nothing. |
| `Submission.ListingForm.OverlayMounted` | src/pages/Index.tsx:182 | `{showSuccess && <LoadingSequence />}`. `OnSubmit`, `Submit` and `Press` state when it holds: from the insert on, and after a stored insert; not after a store error. |
| `Submission.ListingForm.OnSubmit` | src/pages/Index.tsx:154-176 | Exactly one row, the mapping of the data, is sent, and both flags are true when it is sent. On a store error: one toast, both flags false, values, errors and route unchanged. On success: values reset to empty, errors cleared, route `/thank-you`, and both flags still true. The invariant (flags equal; every row sent came from validated values) is kept. |
| `Submission.ListingForm.Submit` | src/pages/Index.tsx:197 | If validation fails: errors are set to each field's verdict, and nothing else changes (no insert, flags, values and route as before). If it passes: the `onSubmit` outcome above, stated through the button-disabled and overlay-mounted predicates (src/pages/Index.tsx:182, 301). |
| `Submission.ListingForm.Press` | src/pages/Index.tsx:298-302 | While the button is disabled (`isSubmitting`), a press changes nothing. Otherwise it behaves as `Submit`. |
| `Submission.InvalidFormSendsNothing` | src/pages/Index.tsx:197 | A form that fails validation sends no insert, whatever the store would answer, and shows a non-empty set of errors equal to the per-field verdicts. |
| `Submission.DoublePressSendsOnce` | src/pages/Index.tsx:301 | After a stored submission, a second press sends nothing: exactly one insert, and the route is `/thank-you`. |
| `Submission.RetryAfterStoreError` | src/pages/Index.tsx:170-175 | After a store error the values are kept and the button is re-enabled. A second press sends the same row again and can reach `/thank-you`. |
| `Loading.NextStep` | src/pages/Index.tsx:74 | One tick raises the step by at most one. It stays put exactly when the step is on or past the last message. It never leaves the range of the four messages. |
| `Loading.StepAfter` | src/pages/Index.tsx:64-75 | The step after k firings of the interval from the initial 0 never exceeds k and never leaves the last message. Its closed form is `StepAfterIsCapped`. |
| `Loading.StepAfterIsCapped` | src/pages/Index.tsx:64-75 | Starting from 0, after k ticks the step is k while k < 3, and 3 from then on. |
| `Loading.StepAfterMonotone` | src/pages/Index.tsx:72-75 | The step never decreases as ticks go by. |
| `Loading.StageOf` | src/pages/Index.tsx:123-139 | How message `index` is drawn: green with a check mark before the step, highlighted with the dots at it, dimmed after it. Pinned down over all messages by `StagesShape`. |
| `Loading.Stages` | src/pages/Index.tsx:120-139 | The drawing of all four messages for one step, one stage per message. Pinned down by `StagesShape` and `View`. |
| `Loading.StagesShape` | src/pages/Index.tsx:120-139 | For every reachable step, the messages before it are drawn as done (check mark), the step itself is the only current one, and the messages after it are pending. |
| `Loading.FinalStageReached` | src/pages/Index.tsx:65-75 | From the third tick on, the thank-you message is current and the three before it are checked off. |
| `Loading.LoadingSequence.constructor` | src/pages/Index.tsx:64 | A freshly mounted overlay starts at step 0 with no ticks. |
| `Loading.LoadingSequence.Tick` | src/pages/Index.tsx:73-75 | Each interval tick applies the updater once. The step never decreases, and it always equals the capped tick count. |
| `Loading.LoadingSequence.View` | src/pages/Index.tsx:120-139 | The drawn messages: the current step is highlighted, earlier ones are done, later ones are pending. |

## Left out

- `StarField` and every framer-motion animation prop. They are decorative, random and in floating point (src/pages/Index.tsx:27-61, 81-144).
- `src/pages/ThankYou.tsx` is not part of this model. It is a static page whose only action is navigating back to `/`.
- The hosted database client and the network call. The store's answer is a parameter (`InsertReply`), and the error value itself is not kept.
- `console.error` and the text of `toast.error`. They are I/O, and the model keeps only a count of error toasts.
- Real time. The 4000 ms wait before `reset()` is one step that changes nothing. The 1000 ms interval is one `Tick` per firing. How many ticks the overlay gets before navigation depends on timing and is not modelled.
- `Submission.ListingForm.OnSubmit`: runs to completion in one call. The model does not include the moments between sending the insert and getting the answer, or a second event arriving then (asynchronous interleaving). What it keeps from that window is that both flags were true when the row was sent.
- The overlay's `LoadingSequence` instance is not a field of `ListingForm`. `OverlayMounted()` says when it is mounted, and its constructor says every mount starts at step 0.
- react-hook-form internals beyond the declared rules. Out of scope are field registration, re-validation modes, focus handling and `reset` options. `reset()` is modelled as emptying every input and clearing the errors.
- Length is `|s|` over `seq<char>`. JavaScript's `minLength` counts UTF-16 code units, so text outside the Basic Multilingual Plane counts differently.
- The browser's own constraint validation is not modelled. The website input has `type="url"`, and the form does not set `noValidate`, so a browser may refuse values such as `example.co` before the form's own handler runs. The model covers only the rules declared in the code.
- Navigation after the component is destroyed. The model keeps only the route the page asks for.
