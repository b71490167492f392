# Portfolio page behaviour, modelled in Dafny

The portfolio site's script (`app.js`) is mostly DOM wiring, but a few parts of
it make decisions. This project states those parts over explicit inputs and
proves what they promise:

- **Contact-form validation** (`validateForm`). Four rules run over the name,
  e-mail, subject and message fields. The result is an ordered list of at most
  four fixed messages. A field the form does not have (`formData.get` gives
  `null`) counts as an empty string. Lengths are counted as JavaScript's
  `.length` counts them, in UTF-16 code units, so a character outside the Basic
  Multilingual Plane (an emoji) counts twice. JavaScript's `trim()` and the regex class
  `\s` share one white-space predicate, `JsText.IsSpace`.
- **The e-mail rule.** The regular expression `/^[^\s@]+@[^\s@]+\.[^\s@]+$/`
  is stated two ways, and the two are proved to accept the same strings:
  - `MatchesEmailPattern` reads the regex as three segments around an `@` and
    a `.`;
  - `IsEmailAddress` says the same thing as "exactly one `@`, no white space,
    a non-empty local part, and a domain with a `.` that has a character on
    each side".
- **Submission flow** (`handleContactForm`, `showFormFeedback`). A
  `ContactForm` object holds:
  - the submit button's `disabled` flag and text;
  - the `.form-feedback` banner nodes, in document order;
  - the completions that accepted submissions have scheduled.

  An invalid submission shows only its first error and changes nothing else. A
  valid one puts the button into its "Sending..." state. The completion gives
  the button back its old text. At most one banner is ever in the page.
- **Active navigation link** (`updateActiveNavLink`). A loop visits the
  sections in document order. Every section whose half-open span holds
  `scrollY + 100` clears all links and marks its own, so the last such section
  decides. If no section matches, the links keep their classes.
- **Mobile menu.** The panel's and the toggle's `active` flags change
  together. Closing twice is the same as closing once, and toggling twice
  changes nothing. Any resize event after which the viewport is wider than
  768 px closes the menu, whether the window grew or shrank.
- **Typing effect.** The subtitle cycles through five skills. Each skill is
  typed one character per tick, then erased one character per tick, and then
  the index moves on, wrapping after the last skill. A run of rounds shows the
  skills' rounds in that order (`RunFrames`), so every text shown is a prefix
  of a configured skill. The skill list is a field of the effect, which its
  constructor sets to the five configured skills.

Files: `wrappers.dfy` (Option), `js_text.dfy` (white space, `trim`, a first-match search,
`substring`), `form_validation.dfy`, `contact_form.dfy`, `navigation.dfy`,
`typing_effect.dfy`.

Timers are not modelled as time. Each delayed callback is a method that the
caller runs later: `CompleteSend` (after 2000 ms), `RemoveBanner` (after
7000 + 300 ms), and the phases `TypeSkill` and `EraseSkill`. The browser state is
passed in as parameters: the scroll offset, the section geometry, the viewport
width, and whether the subtitle exists.

Toggling flips both classes, so it is not idempotent: two toggles restore the
state (`ToggleTwiceRestores`). Only closing is idempotent (`CloseIdempotent`).

## Model

| member | source | states |
|---|---|---|
| `JsText.Trim` | app.js:76 | `trim()` keeps a result that neither starts nor ends with white space, and it is empty exactly when the input is all white space |
| `JsText.TrimIsSlice` | app.js:76 | what `trim()` keeps is one contiguous slice of the input, and everything cut away on both sides is white space |
| `JsText.TrimUnpadded` | app.js:76-93 | a string with no white space at either end is left unchanged by `trim()` |
| `JsText.TrimIdempotent` | app.js:76-93 | trimming a second time removes nothing more |
| `JsText.Utf16Length` | app.js:76-93 | `.length` counts UTF-16 code units: at least one and at most two per character, exactly one per character when no character is astral, and exactly two per character when all are |
| `JsText.Substring` | app.js:286 | `substring(start, end)` with bounds inside the string is exactly that slice, and never longer than the string |
| `FormValidation.IsEmailAddress` | app.js:81-83 | the form's e-mail test, stated as no white space, exactly one `@` with something before it, and a domain with an inner `.`; every accepted address is at least five characters long and does not start with `@` |
| `FormValidation.EmailPredicateSound` | app.js:82 | every string with exactly one `@`, no white space, a non-empty local part and a domain with an inner `.` matches the regex |
| `FormValidation.EmailPredicateComplete` | app.js:82 | every string the regex matches has exactly one `@`, no white space, a non-empty local part and a domain with an inner `.` |
| `FormValidation.EmailPredicateMatchesPattern` | app.js:81-83 | the e-mail test accepts exactly the language of `/^[^\s@]+@[^\s@]+\.[^\s@]+$/` |
| `FormValidation.EmailFromParts` | app.js:82 | any three segments of non-space, non-`@` characters joined by `@` and `.` pass the e-mail test |
| `FormValidation.LengthFails` | app.js:76-95 | the written check `!v \|\| v.trim().length < min` fails exactly when the trimmed text, with `null` read as "", is shorter than `min` UTF-16 code units |
| `FormValidation.EmailFails` | app.js:81-85 | the written check `!email \|\| !regex.test(email)` fails exactly when the text, with `null` read as "", is not an e-mail address |
| `FormValidation.Collect` | app.js:73-97 | the four conditional pushes give at most four messages, each present exactly when its own rule failed, and none exactly when no rule failed |
| `FormValidation.CollectInFieldOrder` | app.js:73-97 | the pushed messages are in field order: name, e-mail, subject, message |
| `FormValidation.ValidateForm` | app.js:72-98 | every rule is checked; each message is in the result exactly when its own rule fails; there are at most four; the result is empty exactly when the trimmed name has ≥ 2 UTF-16 code units, the e-mail test holds, the trimmed subject has ≥ 3 and the trimmed message ≥ 10 |
| `FormValidation.ValidateFormInFieldOrder` | app.js:72-98 | the messages appear in the order name, e-mail, subject, message, and only configured messages appear |
| `FormValidation.FirstErrorIsEarliestField` | app.js:147-150 | the message shown (`errors[0]`) is that of the earliest field, in field order, whose rule fails |
| `FormValidation.MissingFieldIsEmpty` | app.js:76-93 | a field the form lacks (`null`) validates exactly like an empty one |
| `FormValidation.EmailExamples` | app.js:82-83 | "a@b.co" is accepted; "a@b", "a.com", "a @b.com" and "" are rejected |
| `FormValidation.AstralNameIsLongEnough` | app.js:76 | a name of one emoji (two UTF-16 code units) meets the two-character name rule |
| `FormValidation.InvalidFormExample` | app.js:72-98 | name "A", e-mail "bad", subject "Hi", message "short": the first message concerns the name |
| `FormValidation.ValidFormExample` | app.js:72-98 | "Alice", "alice@example.com", "Hello", "This is a long enough message." gives no messages |
| `ContactFlow.Cleared` | app.js:172 | `contactForm.reset()` empties every control the form has and adds none |
| `ContactFlow.ClearedFormFailsEveryRule` | app.js:172 | after `contactForm.reset()`, a new submission reports all four messages, in field order |
| `ContactFlow.ContactForm.constructor` | app.js:340-342 | as loaded: no banner, the button enabled with its own text, nothing scheduled |
| `ContactFlow.ContactForm.ShowFormFeedback` | app.js:101-128 | any existing banner is removed before the new one is appended, so exactly one banner (the new one) is in the page, and nothing else changes |
| `ContactFlow.ContactForm.RemoveBanner` | app.js:133-139 | a banner's removal timer removes that banner only if it is still in the page; a newer banner is left alone |
| `ContactFlow.ContactForm.HandleContactForm` | app.js:143-160 | invalid: only `errors[0]` is shown as an error banner, and the button, the fields and the schedule are unchanged; valid: the button is disabled with "Sending..." and a completion is scheduled that remembers the old text |
| `ContactFlow.ContactForm.StartSending` | app.js:155-160 | the loading state: the button is disabled and labelled "Sending...", and the completion keeps the previous text and the submitted values |
| `ContactFlow.ContactForm.CompleteSend` | app.js:163-172 | the completion re-enables the button with its original text, replaces any banner with the success banner, and clears the form |
| `ContactFlow.ContactForm.SubmitAndComplete` | app.js:143-172 | a submission followed by its completion leaves the button's text as it was; the one banner in the page is an error exactly when the form was invalid |
| `Navigation.ToggleTwiceRestores` | app.js:11-14 | toggling the menu twice restores both flags |
| `Navigation.CloseIdempotent` | app.js:17-20 | closing leaves both flags false, and closing twice equals closing once |
| `Navigation.MenuOperationsKeepInStep` | app.js:11-20 | toggle and close keep the panel's and the toggle's flags equal |
| `Navigation.MobileMenu.constructor` | app.js:4-5 | the page starts with neither element active |
| `Navigation.MobileMenu.Toggle` | app.js:11-14 | both `active` flags are flipped |
| `Navigation.MobileMenu.Close` | app.js:17-20 | both `active` flags are cleared |
| `Navigation.MobileMenu.OnResize` | app.js:401-406 | a viewport wider than 768 closes the menu; otherwise nothing changes |
| `Navigation.SpansAtFloor` | app.js:45-53 | with whole-pixel `offsetTop` and `offsetHeight`, a fractional `scrollY` selects the same sections as its floor |
| `Navigation.LastSpanning` | app.js:47-58 | finds the last section in document order whose span `top ≤ pos < top + height` holds the position, or reports that no section does |
| `Navigation.LinkFor` | app.js:51 | the first navigation link whose `href` is `#` plus the section id, or none when no link has it |
| `Navigation.ActiveAfter` | app.js:47-58 | the classes after the loop: one per link, and whenever they changed, at most one link is active |
| `Navigation.ActiveAfterLastSpanning` | app.js:47-58 | when some section spans `scrollY + 100`, the only active link afterwards is the link of the last such section, and no link is active if that section has none |
| `Navigation.ActiveAfterNoSpanning` | app.js:47-58 | when no section spans the position, every link keeps its class |
| `Navigation.AtMostOneActive` | app.js:54-57 | once a spanning section is found, at most one link is active |
| `Navigation.NavLinks.constructor` | app.js:6 | the navigation links with their `href`s and their initial classes |
| `Navigation.NavLinks.ClearActive` | app.js:54 | the `forEach` loop clears the `active` class of every link |
| `Navigation.NavLinks.UpdateActiveNavLink` | app.js:43-60 | the loop over the sections leaves the classes the fixed function `ActiveAfter` gives of the old classes, the links, the sections and `scrollY + 100`, so equal inputs always give equal results |
| `Typing.SkillsNonEmpty` | app.js:273 | every configured skill has at least one character, so each typing interval stops |
| `Typing.TypeFramesArePrefixes` | app.js:285-295 | the typing ticks show the prefixes of the skill of lengths 1 up to its full length, in order |
| `Typing.EraseFramesArePrefixes` | app.js:302-311 | the erasing ticks show the prefixes of the skill of lengths full down to 0, in order |
| `Typing.PhaseFramesAreSkillPrefixes` | app.js:281-311 | every text shown by a typing or erasing phase is a prefix of a configured skill |
| `Typing.TypingEffect.constructor` | app.js:269-279 | the skill list is the five configured skills; the effect runs only when the subtitle exists and the viewport is wider than 768; the span starts empty at skill 0 |
| `Typing.TypingEffect.TypeSkill` | app.js:281-296 | the typing phase shows the skill's prefixes of lengths 1 to n, ends showing the whole skill, and keeps the skill index |
| `Typing.TypingEffect.EraseSkill` | app.js:298-312 | the erasing phase shows lengths n down to 0, ends with an empty span, and advances the skill index to `(i + 1) % 5` |
| `Typing.RoundFramesArePrefixes` | app.js:281-311 | every text one round of a skill shows, typing then erasing, is a prefix of a configured skill |
| `Typing.RunJoin` | app.js:306-309 | a run of n rounds from skill i is the round of skill i followed by n - 1 rounds from skill `(i + 1) % 5`, both in what they show and in where they leave the skill index |
| `Typing.RunFramesAreSkillPrefixes` | app.js:281-311 | however many rounds run, from any skill, every text they show is a prefix of a configured skill |
| `Typing.TypingEffect.Round` | app.js:281-312 | one round shows exactly the current skill typed and then erased, leaves the span empty and makes skill `(i + 1) % 5` current |
| `Typing.TypingEffect.Run` | app.js:281-317 | after n rounds from skill i the texts shown are exactly `RunFrames(skills, i, n)`, the rounds of skills i, i + 1, … in order, wrapping after the last; the skill index is `(i + n) % 5`; the span is empty after at least one round and unchanged after none; every text shown is a prefix of a configured skill |

## Left out

- Timers and delays (the 2000, 1000, 7000, 300, 100, 50 and 500 ms callbacks) are not modelled as time. Their effects are the step methods named above, run in the order the timers would fire.
- The `requestAnimationFrame` coalescing of scroll events with the `ticking` flag is not modelled. It is event-loop scheduling and decides no state.
- DOM construction and styling are not modelled: the banner's CSS and markup, the injected keyframes, `scrollIntoView`, `scrollTo`, the navbar background switch at 50 px, and the scroll-to-top button and its 500 px visibility threshold. All of these are style writes.
- The IntersectionObserver entrance animations are not modelled. They are a browser callback that only writes styles.
- The mailto link built after a send, and the navigation to it, are not modelled. They depend on the library encoder `encodeURIComponent`.
- `smoothScroll`, the Enter-key focus handling, the LinkedIn opacity flash, the outside-click listener and the console messages are not modelled. They are event plumbing and browser I/O.
- Navigation.LinkFor: `document.querySelector('a[href="#id"]')` searches the whole document. The model searches only the navigation links, so another anchor with the same `href` placed earlier in the page is not represented.
- Navigation.LinkFor: the id is pasted into a CSS selector, and the model compares it with the `href` as a plain string. The two agree only for ids free of `"`, `\` and line breaks, which the model assumes. A `\` starts a CSS escape, which is decoded, so the selector stays valid but may match another element or none. A line break makes `querySelector` throw. So does a `"` that leaves the selector invalid, while some ids with `"` form a valid selector list that matches other elements.
- Navigation.NavLinks.UpdateActiveNavLink: it inherits both `LinkFor` gaps. It looks up links among the navigation links only, and it assumes ids free of `"`, `\` and line breaks. With an id containing a line break, or a `"` that leaves the selector invalid, the lookup at app.js:51 throws, whether or not that section spans the position. The throw stops the `forEach` at app.js:47 before the later sections, after the earlier ones are processed, and leaves `ticking` true (app.js:348-352), so the scroll handler never runs again. With a `\` the selector stays valid and the escape is decoded, so the lookup quietly finds another element or none. The model represents none of these outcomes.
- Navigation.NavLinks.UpdateActiveNavLink takes an integer scroll offset. This loses nothing: `offsetTop` and `offsetHeight` are whole pixels, so a fractional `scrollY` selects the same sections as its floor (`SpansAtFloor`).
- ContactFlow.Cleared: `contactForm.reset()` restores each control's default value, which is taken to be the empty string.
- ContactFlow.ContactForm.CompleteSend: the button's markup is reduced to its `textContent`. Any icon markup the button had before is not represented.
- JsText.Substring indexes by characters, not by UTF-16 code units. It is applied only to the configured skills, which are plain ASCII, where the two agree.
- JsText.Trim works on characters. Every white-space character is in the Basic Multilingual Plane, so this is the same as working on UTF-16 code units.
- JsText.IndexOf is a modelling helper, not a call of `String.prototype.indexOf`: it finds the `@` in `IsEmailAddress` and the first match of `querySelector` in `LinkFor`. It answers `|s|` rather than -1 when the element is absent, and callers test the answer against the length before using it as an index.
- Typing.TypingEffect.TypeSkill: the interval updates the text before testing for the end. The model tests at the head of the loop. The two agree because no configured skill is empty (`SkillsNonEmpty`).
- Typing.TypingEffect.Run: the effect's endless cycle is stated for any finite number of rounds.
