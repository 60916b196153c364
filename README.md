# Voltrac landing page: verified model of the contact form, navbar and notifications

This project models the deterministic parts of the Voltrac landing page script
(`js/script.js`) in Dafny:

- **Contact-form validation** (`validateForm`). The checks run in order and stop at
  the first failure: the name must be non-empty, then the contact value, then the
  message. Last, the contact value must match the e-mail pattern
  `^[^\s@]+@[^\s@]+\.[^\s@]+$` or the Indonesian phone pattern
  `^(\+62|62|0)[0-9]{9,13}$`. The model returns a `Verdict` (`Accepted`, or
  `Rejected` naming the failed rule). It does not raise a notification and answer
  `false`. The submit handler trims name, contact and message before validating
  them, so JavaScript's `trim` and its white-space class `\s` are modelled too
  (module `Text`).
- **Navbar scroll effect** (`initNavbarScrollEffect`). The class `NavbarEffect`
  holds `lastScrollY` and the navbar's inline background and transform.
  `OnScroll` is proved against a pure `Step` function. Lemmas about `Run`, a
  sequence of steps, describe whole scroll histories.
- **Contact-form submission** (`initFormHandling`). The class `ContactForm` holds
  the four inputs, the button label, the disabled flag and the labels saved by
  scheduled completions. `Submit` is the submit listener. `CompleteSubmission` is
  the 2000 ms timer firing. Both are proved against the pure functions
  `AfterSubmit` and `AfterCompletion`.
- **Notifications** (`showNotification`). A severity tag maps to an alert class
  and an icon. The class `Page` keeps the document body as a sequence of
  notification ids. `ShowNotification` appends an id. `ExpireNotification` is the
  5000 ms timer firing: it removes the element only if it is still attached.
- **Smooth scrolling**: the target offset of an in-page anchor click.

Timers have no clock here: each timer callback is a method that the caller
invokes. Scroll offsets and element positions are integers, since the code only
compares them or adds and subtracts them. Field names follow the form's meaning:
`name`, `contact`, `subject` and `message` stand for the inputs `nama`, `email`,
`subjek` and `pesan`.

## Model

| member | source | states |
|---|---|---|
| `Text.Trim` | js/script.js:136-139 | the trimmed value is a contiguous window of the input that contains every non-white-space character and neither starts nor ends with white space |
| `Text.TrimEmptyIff` | js/script.js:174-187 | a trimmed field is empty, and so fails its "required" rule, exactly when the raw input is all white space |
| `Text.TrimUntrimmed` | js/script.js:136-139 | trim leaves a value that neither starts nor ends with white space unchanged |
| `Text.TrimIdempotent` | js/script.js:136-139 | trimming a trimmed value changes nothing |
| `Patterns.EmailShape` | js/script.js:190 | the e-mail pattern accepts exactly the strings with no white space and exactly one '@', not at the start, whose domain has a '.' that is neither its first nor its last character |
| `Patterns.TwoAtSignsRejected` | js/script.js:190 | a string with two '@' never matches the e-mail pattern |
| `Patterns.WhitespaceRejected` | js/script.js:190-193 | a contact value that contains white space matches neither pattern |
| `Patterns.EmailExamples` | js/script.js:190 | "user@example.com" matches the e-mail pattern and "not-an-email" does not |
| `Patterns.PhoneShape` | js/script.js:191 | a phone match has 10 to 16 characters, all digits except a possible leading '+', so it has no white space and no '@' |
| `Patterns.PhoneExamples` | js/script.js:191 | "0812345678901" and "+6281234567890" match the phone pattern and "123" does not |
| `Patterns.EmailAndPhoneDisjoint` | js/script.js:193 | no contact value matches both patterns, so the combined check accepts through exactly one of them |
| `Validation.ValidateForm` | js/script.js:172-199 | accepted exactly when name, contact and message are non-empty and the contact matches the e-mail or the phone pattern; a rejection names a failing rule, and every rule checked before it holds |
| `Validation.FirstFailure` | js/script.js:172-196 | reference reading of the ordered checks: accepted iff every listed rule holds; otherwise it names a failing rule and all rules before it hold |
| `Validation.ValidateFormIsFirstFailure` | js/script.js:172-196 | validateForm reports exactly the first failing rule in the order name, contact, message, contact format |
| `Validation.SubjectIgnored` | js/script.js:172-199 | the subject field never affects the verdict |
| `Validation.ContactExamples` | js/script.js:189-198 | with name and message present, "user@example.com" and "0812345678901" are accepted, while "not-an-email" and "123" fail the contact-format rule |
| `Notifications.AlertClassOf` | js/script.js:207 | "error" maps to the danger class, "success" to the success class, and every other tag to the info class |
| `Notifications.IconOf` | js/script.js:211 | the icon chosen by its own ternary always belongs to the alert class: exclamation triangle for danger, check circle for success, info circle for info |
| `Notifications.Detach` | js/script.js:220-224 | removing a notification from the body takes out that id and only that id; it keeps the body free of duplicates and shortens it by one when the id was attached |
| `Notifications.DetachSplit` | js/script.js:221-222 | removing one attached notification leaves the others in their order |
| `Notifications.DetachTwice` | js/script.js:220-224 | a notification is removed at most once: removing it again changes nothing |
| `Notifications.DetachCommutes` | js/script.js:220-224 | notifications expire independently: two removals give the same body in either order |
| `Notifications.DefaultTagIsInfo` | js/script.js:204 | a notification shown without a tag gets the info class and the info icon |
| `Notifications.Page.ShowNotification` | js/script.js:204-217 | appends one fresh id to the body and records its message with the class and icon of the tag; nothing already attached changes |
| `Notifications.Page.ExpireNotification` | js/script.js:220-224 | removes the notification only if it is still attached; every other notification stays attached and the record of created notifications is unchanged |
| `Navbar.NavbarEffect.constructor` | js/script.js:94 | the remembered offset starts at the offset at set-up time |
| `Navbar.NavbarEffect.OnScroll` | js/script.js:96-121 | with a navbar present: the background is dense iff the offset is past 100, the navbar is hidden iff the offset grew and is past 200, and the offset is remembered; with none, nothing changes |
| `Navbar.StepPlacement` | js/script.js:103-120 | one event with a navbar present docks the navbar unless it scrolls down past 200; in particular, any event that does not scroll down, or whose offset is at most 200, docks it |
| `Navbar.Present` | js/script.js:100 | keeps only events of a history that found a navbar, and every such event |
| `Navbar.PresentAppend` | js/script.js:100 | the events that found a navbar are kept in their order and number: filtering a history is filtering each part of it |
| `Navbar.PresentSingle` | js/script.js:100 | a single event is kept exactly when it found a navbar |
| `Navbar.AbsentEventsIgnored` | js/script.js:100 | events that find no navbar leave no trace on a whole scroll history |
| `Navbar.RunRemembersLastPresent` | js/script.js:103-120 | after any history, the remembered offset and the background are those of the last event that found the navbar |
| `Navbar.ScrollingDownPastThresholdHides` | js/script.js:112-118 | scrolling steadily down with the navbar present leaves it hidden once the offset is past 200 |
| `FormHandling.ContactForm.constructor` | js/script.js:127-131 | set-up leaves the inputs and the button label as the page has them, with the button enabled and nothing scheduled |
| `FormHandling.ContactForm.Edit` | js/script.js:135-140 | the visitor's typing replaces the input values that the next submit reads, and changes nothing else |
| `FormHandling.ContactForm.Submit` | js/script.js:131-151 | a rejected submit appends one danger notification naming the failed rule and changes nothing else; an accepted one saves the label, shows the busy label, disables the button and schedules a completion |
| `FormHandling.ContactForm.CompleteSubmission` | js/script.js:154-164 | the earliest scheduled completion appends a success notification, clears every input, restores the label saved for it and enables the button |
| `FormHandling.RejectedSubmitChangesNothing` | js/script.js:143-145 | an invalid submit leaves inputs, label, disabled flag and schedule unchanged |
| `FormHandling.SubmitThenComplete` | js/script.js:147-164 | from an idle form, an accepted submit followed by its completion returns to idle with the original label and all inputs cleared |
| `FormHandling.ClearedFormIsRejected` | js/script.js:159 | after the reset, an immediate resubmit fails the name rule first |
| `FormHandling.SubmitKeepsConsistent` | js/script.js:148-151 | while submits arrive only at an enabled button, a submit keeps the form idle or busy with the original label saved |
| `FormHandling.CompletionKeepsConsistent` | js/script.js:154-164 | under the same discipline, every completion restores the original label |
| `FormHandling.FilledInAccepted` | js/script.js:135-199 | a name, an e-mail contact and a message with no surrounding white space pass the submit handler's trimming and every rule |
| `FormHandling.AcceptedSubmission` | js/script.js:131-164 | on a freshly set-up form, typing valid input and submitting is accepted, and the completion brings the form back to idle with its original label and empty inputs |
| `FormHandling.SubmitWhileBusySavesBusyLabel` | js/script.js:148-151 | the handler does not check the button: two accepted submits in a row save the busy label second, and after both completions the enabled button keeps the busy label |
| `SmoothScroll.ScrollDestination` | js/script.js:47-58 | no scroll when the fragment names no element; otherwise the destination puts the target exactly 80 units below the top of the viewport |

## Left out

- DOM querying, listener registration and `preventDefault`. The scroll handler takes what it would read from the page as parameters. The form's inputs are fields of `ContactForm`: the page supplies their values at set-up, and `Edit` stands for the visitor typing into them.
- Timer delays (1500, 500, 2000 and 5000 ms). Each callback is a separate method with no clock. All submission timers share one delay, so completions fire in the order they were scheduled.
- The loading overlay (`initLoadingAnimation`). It is only two delayed DOM updates.
- The scroll-reveal observer, the hero floating animation, lazy loading, performance monitoring and the global error logger. They are browser APIs, floating-point animation or console output.
- `debounce`, `throttle` and `isInViewport`. They are never called, and they are timer closures or layout reads.
- Notification markup, inline CSS and message wording. A notification keeps its kind of message, its alert class, its icon and whether it is attached.
- Closing a notification by hand. That is the CSS framework's behaviour and is not part of this model. Because of it, a notification's own timer may find the element already gone; the guard in `ExpireNotification` covers that case. So the code removes a notification at most once, not exactly once: if it was closed by hand first, its timer removes nothing.
- `FormHandling.ContactForm.CompleteSubmission`: `reset()` restores each input's default value from the page markup. The markup is not part of this model, and the model takes those defaults to be empty.
- `Navbar.NavbarEffect.OnScroll`: the inline styles are modelled as the two background tiers and the two placements. The colour and blur strings are not modelled.
- `SmoothScroll.ScrollDestination`: positions are integers. The browser's clamping of the scroll offset and the smooth animation are not modelled.
- Characters are Unicode scalar values, whereas JavaScript strings are UTF-16 code units. For both patterns and for `trim` the two readings accept the same strings, because none of the characters involved lies outside the Basic Multilingual Plane.
- The submit handler does not check whether a submission is already under way. Its button is disabled during that time, and a disabled submit button delivers no submit events, so the behaviour shown by `SubmitWhileBusySavesBusyLabel` is modelled but cannot occur through the page.
