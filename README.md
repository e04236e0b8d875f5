# Contact-form and navigation logic of the LUMEN Speech and Hearing site

A model, in Dafny, of the parts of `script.js` that follow rules rather than only wire up
the page:

- the contact-form submit handler, which reads six form controls, checks the required
  fields, then the phone number (ten digits once whitespace is removed), then the e-mail
  address when one was given, reports the first failure as an error notification and
  stops, or reports success and resets the form (modules `Chars`, `Email`, `Validation`,
  `ContactForm`);
- the notification slot behind `showNotification`: at most one `.notification` element is
  attached to the page; showing one removes the old element, appends the new one and
  schedules its slide-out and removal through two timers (module `Notifications`);
- `scrollActive`, which walks the page's sections in document order and, for every
  section whose band contains the scroll position, clears all navigation links and
  activates that section's link (module `NavHighlight`);
- `debounce`, a one-slot pending call: each call cancels the armed timeout and arms a new
  one with its own arguments (module `Debounce`).

The DOM becomes plain state: form controls are string fields of `ContactForm.Form`; the
attached notifications are a sequence field of `Notifications.NotificationLayer` and the
scheduled callbacks a sequence of `Timer` values that a `Fire` step runs; the navigation
links' `active` classes are an `array<bool>` updated in place; the debounced function's
armed timeout is an `Option` field of `Debounce.Debouncer`. The regular expressions of the
handler are written out as predicates over `seq<char>`: `Email.EmailPattern` says
position by position what `/^[^\s@]+@[^\s@]+\.[^\s@]+$/` matches, and `Email.EmailOk`
decides it by splitting at the '@'; the two are proved equal.

JavaScript's `\s` is the fixed list of ECMAScript WhiteSpace and LineTerminator code
points (`Chars.IsWs`). The proofs use only that ' ' is whitespace and that the ASCII
digits, the lower-case ASCII letters, '@', '.' and '-' are not. Strings are sequences of Unicode scalar values; JavaScript's
UTF-16 code units differ only outside the Basic Multilingual Plane, where none of the
characters the checks look for lie, and in unpaired surrogates, which the model cannot
represent (each would count as `[^\s@]` and as no digit).

The superseded notification's timers are not cancelled by the code (script.js:192-197
arms them and nothing clears them). The model keeps them: a stale timer still runs, and
`NotificationLayer.Fire` proves that it changes nothing on screen, since it only ever
touches its own, already removed element.

## Model

| member | source | states |
|---|---|---|
| `Chars.IsWs` | script.js:135 | definition of `\s` (ECMAScript WhiteSpace and LineTerminator); used by StripWs and Email.Plain |
| `Chars.IsDigit` | script.js:134 | definition of `[0-9]`; used by TenDigits |
| `Chars.TenDigits` | script.js:134 | definition of `/^[0-9]{10}$/`: exactly ten ASCII digits; used by PhoneOk and characterised by PhoneWithoutWs |
| `Chars.PhoneOk` | script.js:134-135 | definition: ten ASCII digits after stripping whitespace; characterised by PhoneOkIff, PhoneWithoutWs and PhoneIgnoresWhitespace |
| `Chars.StripWs` | script.js:135 | the result has no whitespace and is no longer than the input |
| `Chars.StripWsKeeps` | script.js:135 | a character is in the result iff it is in the input and is not whitespace |
| `Chars.StripWsConcat` | script.js:135 | removing whitespace distributes over concatenation |
| `Chars.StripWsOfNoWs` | script.js:135 | a string without whitespace is left unchanged |
| `Chars.StripWsIdempotent` | script.js:135 | removing whitespace twice is removing it once |
| `Chars.PhoneIgnoresWhitespace` | script.js:134-135 | inserting a whitespace character anywhere in the phone never changes whether it passes |
| `Chars.PhoneOkIff` | script.js:134-135 | the phone passes iff its non-whitespace characters number ten and are all ASCII digits |
| `Chars.PhoneWithoutWs` | script.js:134-135 | a phone without whitespace passes iff it is exactly ten ASCII digits |
| `Chars.PhoneAcceptsDigits` | script.js:134-135 | "9876543210" passes |
| `Chars.PhoneAcceptsSpaced` | script.js:134-135 | "98765 43210" passes |
| `Chars.PhoneRejectsDashes` | script.js:134-137 | "123-456-7890" fails: dashes are not removed |
| `Chars.PhoneRejectsShort` | script.js:134-137 | "98765" fails |
| `Chars.PhoneRejectsLong` | script.js:134-137 | "12345678901" fails |
| `Email.EmailPattern` | script.js:142-143 | definition: the regular expression's match, position by position; the reference for EmailOk |
| `Email.Plain` | script.js:142 | definition of `[^\s@]`; used by EmailPattern and EmailOk |
| `Email.DomainOk` | script.js:142 | definition of `[^\s@]+\.[^\s@]+`, the part after the '@'; used by EmailOk |
| `Email.EmailOk` | script.js:142-143 | definition: the regex test decided by splitting at the first '@'; characterised by EmailOkMatchesPattern |
| `Email.EmailOkIsPattern` | script.js:142-143 | every string the split-at-'@' decision accepts matches the regular expression |
| `Email.PatternIsEmailOk` | script.js:142-143 | every string the regular expression matches is accepted by the split-at-'@' decision |
| `Email.EmailOkMatchesPattern` | script.js:142-143 | the split-at-'@' decision accepts exactly the strings the regular expression matches |
| `Email.EmailAcceptsParts` | script.js:142-143 | every local@domain.tld with non-empty parts free of whitespace and '@' is accepted |
| `Email.EmailParts` | script.js:142-143 | every accepted address is local@domain.tld with non-empty parts free of whitespace and '@' |
| `Email.EmailSingleAt` | script.js:142-143 | an accepted address contains exactly one '@' |
| `Email.EmailDotAfterAt` | script.js:142-143 | an accepted address has a '.' after its '@' that is neither next to the '@' nor the last character |
| `Email.EmailAcceptsSimple` | script.js:142-143 | "a@b.com" passes |
| `Email.EmailAcceptsDotted` | script.js:142-143 | every l1.l2@d1.d2.tld whose pieces are free of whitespace and '@', with l1, d1 and tld non-empty, passes: dots may appear in the local part and in the domain |
| `Email.EmailRejectsNoAt` | script.js:142-143 | every string without an '@' fails |
| `Email.EmailRejectsNoDot` | script.js:142-143 | every string with an '@' and no '.' after it fails |
| `Email.EmailRejectsEmptyLocal` | script.js:142-143 | every string starting with '@' fails |
| `Email.EmailRejectsDotAfterAt` | script.js:142-143 | a '.' right after the '@' does not count: every string whose only '.' after an '@' is the one next to it fails |
| `Email.EmailRejectsDotLast` | script.js:142-143 | a final '.' does not count: every string whose only '.' after an '@' is its last character fails |
| `Email.EmailRejectsSpace` | script.js:142-143 | every string holding a whitespace character anywhere fails |
| `Email.EmailRejectsTwoAts` | script.js:142-143 | every string holding two '@' fails |
| `Validation.Truthy` | script.js:128 | definition: JavaScript truthiness of a string, non-empty; characterised by WhitespaceNameIsPresent |
| `Validation.RequiredPresent` | script.js:128 | definition: name, phone, location and service all truthy; characterised by EmptyRequiredIsMissing |
| `Validation.EmailAcceptable` | script.js:141-143 | definition: the `if (formData.email)` guard, an empty e-mail or one the regex accepts; used by Validate and characterised by EmptyEmailNeverRejects |
| `Validation.Message` | script.js:129-150 | definition: the four texts passed at 129, 136, 144 and 150; characterised by OutcomeReport |
| `Validation.Kind` | script.js:129-150 | definition: 'error' for the three failures, 'success' for acceptance; characterised by OutcomeReport |
| `Validation.Validate` | script.js:127-150 | missing-required iff a required field is empty; invalid-phone iff all are present and the phone fails; invalid-email iff both passed and a non-empty e-mail fails; accepted iff all three checks pass |
| `Validation.OutcomeReport` | script.js:128-150 | the four outcomes show four different messages, and only acceptance is reported with type 'success' |
| `Validation.FailFast` | script.js:128-147 | once the required check or the phone check fails, the e-mail and message fields cannot change the outcome; the message field never affects it |
| `Validation.EmptyRequiredIsMissing` | script.js:128-131 | an empty name, phone, location or service gives missing-required |
| `Validation.WhitespaceNameIsPresent` | script.js:128-131 | a whitespace-only name counts as present |
| `Validation.EmptyEmailNeverRejects` | script.js:140-147 | an empty e-mail never gives invalid-email; such a submission is accepted iff the required fields and the phone pass |
| `Validation.AcceptsScenario` | script.js:118-150 | Asha, 9876543210, no e-mail, Chennai, Speech Therapy is accepted |
| `Validation.MissingNameScenario` | script.js:128-131 | the same submission without a name is missing a required field |
| `Validation.ShortPhoneScenario` | script.js:133-138 | the same submission with phone 98765 has an invalid phone |
| `Validation.BadEmailScenario` | script.js:140-147 | the same submission with the e-mail "a@bcom" has an invalid e-mail |
| `Notifications.ClassName` | script.js:170 | definition: `notification notification-<type>`; characterised by ClassNameDeterminesKind |
| `Notifications.ClassNameDeterminesKind` | script.js:170 | two elements have the same class attribute iff they have the same type |
| `Notifications.Background` | script.js:178 | green exactly for the type 'success', red for every other type |
| `Notifications.Detached` | script.js:165 | `remove()` takes out exactly the element with that identity and is a no-op when it is not attached |
| `Notifications.SlidingOut` | script.js:193 | the slide-out marks only the element with that identity |
| `Notifications.NotificationLayer.constructor` | script.js:163-164 | the empty page before the first call (the "if any" case at 163-164): no notification attached and no timers |
| `Notifications.NotificationLayer.Current` | script.js:163 | definition of `document.querySelector('.notification')`: the attached notification, if any; used by Show and Submit |
| `Notifications.NotificationLayer.Valid` | script.js:163-189 | definition of the invariant: at most one notification attached, its dismissal pending; kept by the constructor, Show and Fire |
| `Notifications.NotificationLayer.Show` | script.js:161-198 | keeps the invariant (at most one attached, its dismissal pending); afterwards exactly one notification is attached, new, carrying the message and type; one slide-out timer is added |
| `Notifications.NotificationLayer.Fire` | script.js:192-197 | the slide-out timer marks its element and schedules its removal; the removal timer detaches its element; a timer whose element is gone changes nothing on screen; the invariant is kept |
| `Notifications.ShowTwiceScenario` | script.js:161-198 | after two quick calls only the second notification is shown, both slide-out timers are pending, and the first one's timers leave the second on screen |
| `Notifications.DismissScenario` | script.js:192-197 | a notification left alone slides out on its first timer and is gone after its second |
| `ContactForm.Form.constructor` | script.js:118-125 | the controls as the page loads them, at their default values, before the first submit (read at 118-125) |
| `ContactForm.Form.Values` | script.js:118-125 | definition of the `formData` object read from the six controls; used by Submit |
| `ContactForm.Form.Reset` | script.js:153 | every control is back at its default value |
| `ContactForm.Form.Submit` | script.js:114-157 | the outcome is that of the checks on the values read; exactly one notification is shown with the outcome's message and type; the form is reset only on success and left as typed otherwise |
| `ContactForm.SubmitScenario` | script.js:114-157 | a filled-in form with a ten-digit phone and no e-mail is accepted, thanked with a green notification, and reset to its defaults |
| `ContactForm.SubmitColour` | script.js:128-178 | the notification a submission leaves is green iff the submission was accepted |
| `NavHighlight.HrefMatches` | script.js:42 | definition of `[href*="id"]`: a non-empty id occurring in the href; used by LinkFor |
| `NavHighlight.InView` | script.js:44 | definition: the section's band, offsetTop minus 100, exclusive below and inclusive above; used by ScanLastMatch and ScanNoMatch |
| `NavHighlight.Visit` | script.js:44-48 | definition: one section's effect on the flags; characterised by ScanLastMatch and ScanNoMatch |
| `NavHighlight.LinkFor` | script.js:42 | the first link whose href contains the non-empty section id, or none when no link does |
| `NavHighlight.LinkForExamples` | script.js:42 | "about" finds "#about"; an empty id or an id no href contains finds nothing |
| `NavHighlight.Highlight` | script.js:45-48 | every link inactive except the chosen one, if any |
| `NavHighlight.Scan` | script.js:38-50 | the pass keeps the number of links |
| `NavHighlight.ScanLastMatch` | script.js:38-50 | when some section is in view, exactly the link of the last section in view is active and all others are not |
| `NavHighlight.ScanNoMatch` | script.js:38-50 | when no section is in view, the links keep their states |
| `NavHighlight.AtMostOneActive` | script.js:38-50 | after a pass in which some section was in view, no two links are active |
| `NavHighlight.ScrollScenario` | script.js:35-51 | at 650 pixels down a three-section page the second section's link alone is active |
| `NavHighlight.ScrollActive` | script.js:35-51 | the in-place loop leaves the links exactly as the section-by-section pass describes |
| `Debounce.CallStep` | script.js:347-348 | definition: a call re-arms with its own arguments; characterised by BurstArmsLast and RunDelivers |
| `Debounce.FireStep` | script.js:343-346 | definition: the armed call is delivered and disarmed, nothing happens if none is armed; characterised by BurstDeliversLast and DeliveredAtMostOnce |
| `Debounce.BurstArmsLast` | script.js:341-348 | a burst of calls delivers nothing and leaves only the last call's arguments armed |
| `Debounce.BurstDeliversLast` | script.js:340-350 | a burst of calls followed by the timeout delivers exactly the last call's arguments and leaves nothing armed |
| `Debounce.DeliveredAtMostOnce` | script.js:343-346 | after a delivery, further timeouts without a new call deliver nothing |
| `Debounce.RunDelivers` | script.js:340-350 | any sequence of calls and timeouts delivers at most one call per timeout, only appends to what was delivered, and delivers only arguments some call passed (or that were already armed) |
| `Debounce.Debouncer.constructor` | script.js:341 | a new debounced function has nothing armed and has delivered nothing |
| `Debounce.Debouncer.Call` | script.js:342-348 | a call replaces whatever was armed with its own arguments and delivers nothing |
| `Debounce.Debouncer.Fire` | script.js:343-346 | the timeout delivers the armed arguments once and disarms; with nothing armed nothing happens |
| `Debounce.BurstScenario` | script.js:340-350 | three quick calls and two timeouts deliver the third call's arguments once |

## Left out

- DOM queries, element creation, CSS text and the slide animations (script.js:169-189,
  201-225): presentation only; the element is its message, type, identity and a "leaving" flag.
- Real time: the 5000 ms and 300 ms dismissal delays and the 100 ms debounce wait. Timers
  are pending callbacks that the event loop runs in any order it chooses.
- The navigation toggle, sticky header, smooth scrolling, the scroll-to-top button, the
  load fade, IntersectionObserver animations and lazy image loading (script.js:1-30,
  55-108, 227-286, 405-423): DOM and layout wiring without a rule to state, and partly
  floating-point layout values.
- The search box, keyboard handlers, print handler, console messages, service worker stub
  and global error handler (script.js:288-336, 357-403): wiring with no logic.
- `NavHighlight.ScrollActive`: `window.pageYOffset` can be fractional; the model takes the
  scroll position as an integer, like the section offsets.
- `NavHighlight.LinkFor`: a section id containing a quote, a backslash or a newline is not
  taken literally by the selector built at script.js:42: the selector either throws or
  matches by CSS escape rules (a backslash starts an escape, a quote can close the string).
  The model takes the id literally.
- `ContactForm.Form.Submit`: the handler assumes the form's controls exist; a missing
  control would throw a TypeError, which is not modelled. The `console.log` of the
  submitted data and `preventDefault` are left out.
- `Notifications.NotificationLayer.Show`: the default `type = 'success'` of
  `showNotification` (script.js:161) is not modelled; every call site passes a type.
- Which function the debounced wrapper calls, and its `wait`, are not modelled: a delivery
  is recorded as the arguments that reached the wrapped function.
