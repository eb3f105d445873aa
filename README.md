# Sustainability site page scripts, modelled in Dafny

The site is a small set of static pages with four page scripts. They
validate the newsletter, login, registration and climate-pledge forms. They
also toggle menus, panels and tabs, run a recycling quiz, simulate a search
for collection points by CEP (Brazilian postal code), and keep two counters.
The scripts talk to the DOM. Here each element a handler reads or writes
becomes a field: an input's value, an error slot, a `hidden` or `active`
class, a counter's text. Each handler becomes a method of a class holding
those fields, proved against pure functions that state what the handler
computes. Lemmas then prove what the pages promise about those functions.

Modules:

- `Text` (text.dfy) holds the shared string logic:
  - one whitespace set for both `trim` and `\s`, and `trim` itself;
  - the digit filter `replace(/\D/g, '')`;
  - the shared e-mail pattern `^[^\s@]+@[^\s@]+\.[^\s@]+$`, written both as
    a structural check and literally as three runs, and proved equivalent;
  - the three character classes of the registration password.
- `Numbers` (numbers.dfy) holds the integer conversions:
  - `String(n)`;
  - ECMAScript `parseInt` with no radix (sign, `0x` prefix, longest digit
    prefix, `NaN` as `None`);
  - `toLocaleString()` with comma grouping and `replace(/,/g, '')`;
  - the round trips between them.
- `Rules` (rules.dfy) is the first-failing-rule engine the three
  inline-message forms share. It holds the two field shapes every form uses
  (required minimum-length text, required e-mail) and their slot texts.
- `Site` (site.dfy, js/main.js) covers the hamburger menu, the login and
  registration panel swap, the newsletter and login forms, and the
  `ecoPoints` entry of local storage.
- `Registration` (registration.dfy, js/validacao.js) covers the
  registration form, the e-mail check on blur and the live password
  confirmation.
- `Climate` (climate.dfy, js/clima.js) covers the "outro" free-text toggle,
  the pledge text, the pledge counter and the pledge form.
- `MaterialTabs` (tabs.dfy), `RecyclingQuiz` (quiz.dfy) and
  `CollectionPoints` (cep.dfy) are the three parts of js/reciclagem.js.

Notes on what the code does, which the model follows:

- The live confirmation check writes its slot only when both password
  fields are non-empty. When either is empty, the slot keeps what it showed.
- On a successful pledge, the free-text input and its label are hidden, but
  the input's `required` property is not reset.
- A tab click clears every `active` class and then activates the clicked
  button before it looks up the panel. When `data-tab` names no element,
  `getElementById` gives `null` and the script throws at that point. So the
  clicked button is active and no panel is. The lookup searches the whole
  document; the model searches only the `.tab-content` panels.
- Option clicks are not blocked once the results are shown. The result
  marks are only ever added, so an `incorrect` mark outlives a later change
  of selection until Restart (`RecyclingQuiz.StaleMarkSurvives`).
- A stored `ecoPoints` text that `parseInt` cannot read becomes "NaN", and
  stays "NaN" on later clicks. The model covers that case; it does not
  exclude it by a precondition.
- The blur check derives the slot id from the input id: `login-email`
  gives `login-email-error` and `register-email` gives
  `register-email-error`. The submit handlers write `email-login-error`
  (js/main.js:115) and `email-register-error` (js/validacao.js:38). So the
  blur check writes those two forms' slots only if the markup also has the
  derived ids, which the scripts do not show. The newsletter input `email`
  gives `email-error`, the slot its submit handler writes (js/main.js:63).

## Model

| member | source | states |
|---|---|---|
| Text.Trim | js/main.js:60-61 | the trimmed value is no longer than the input, and when non-empty it neither starts nor ends with whitespace |
| Text.TrimSlice | js/main.js:60-61 | `trim` removes exactly a whitespace prefix and a whitespace suffix; a non-empty result neither starts nor ends with whitespace |
| Text.TrimEmptyIff | js/main.js:73 | a value trims to the empty string exactly when it is all whitespace |
| Text.TrimIdempotent | js/main.js:60-61 | trimming a trimmed value changes nothing |
| Text.TrimStart | js/main.js:165 | the whitespace skip of `parseInt` keeps no more than the input, and what it keeps is empty or starts with a non-space |
| Text.IsSpace | js/main.js:60-61 | the one whitespace set of `trim` and `\s`; it holds no digit, no `@` and no `.` |
| Text.MixedClasses | js/validacao.js:77 | the three lookaheads: a lower-case letter, an upper-case letter and a digit each occur somewhere; a password that passes has at least three characters |
| Text.TrimStartSpec | js/main.js:165 | what the skip keeps is a suffix of the input, and everything before it is whitespace |
| Text.DigitsOnly | js/reciclagem.js:175 | the filtered value holds only digits and is no longer than the input |
| Text.DigitsOnlyIdempotent | js/reciclagem.js:175 | filtering the non-digits twice is filtering once |
| Text.DigitsOnlyAppend | js/reciclagem.js:214 | the digit filter distributes over concatenation |
| Text.IsEmail | js/main.js:82 | an accepted address contains `@` and has at least five characters |
| Text.EmailMatchesPattern | js/main.js:82 | the structural check (no whitespace, one `@` after a non-empty part, a `.` strictly inside the domain) accepts exactly what the regular expression matches |
| Text.EmailToPattern | js/validacao.js:61 | every structurally valid address splits into the three runs of the pattern |
| Text.PatternToEmail | js/validacao.js:65 | every match of the pattern passes the structural check |
| Text.MissingAtOrDotIsNotEmail | js/clima.js:118-119 | an address with no `@`, or with no `.` strictly inside its domain, is rejected |
| Numbers.DecimalRoundTrip | js/main.js:167 | the decimal notation `String(n)` writes reads back as `n` |
| Numbers.IntString | js/main.js:167 | `String(n)` is non-empty, starts with `-` exactly when `n` is negative, and is all digits otherwise |
| Numbers.ParseInt | js/main.js:165 | `parseInt` gives `NaN` exactly when no digit follows the whitespace, the sign and any hexadecimal prefix |
| Numbers.StripCommas | js/clima.js:139 | `replace(/,/g, '')`: the result holds no comma, and a text without commas comes back unchanged |
| Numbers.IntStringRoundTrip | js/main.js:165-167 | `parseInt(String(n)) == n` for every integer, negative ones included |
| Numbers.GroupHead | js/clima.js:141 | grouping keeps the leading digit in front |
| Numbers.FormatGrouped | js/clima.js:141 | the grouped text is non-empty and starts with `-` exactly when the count is negative |
| Numbers.StripGroup | js/clima.js:139-141 | removing the commas undoes the grouping of a digit string |
| Numbers.ParseFormatGrouped | js/clima.js:139-141 | a grouped count, with its commas removed, reads back as that count |
| Rules.FirstFailure | js/validacao.js:44-89 | a field's slot is clear exactly when every rule passes, otherwise it reports the first failing rule |
| Rules.FirstFailureAt | js/validacao.js:52-58 | a rule decides the slot exactly when every earlier rule passes |
| Rules.MinLengthCheck | js/main.js:73-79 | a length-checked field is clear exactly when it is non-empty and at least the minimum long |
| Rules.MinLengthIsFirstFailure | js/main.js:73-79 | the empty/too-short chain is the first failure of its two rules |
| Rules.EmailCheck | js/main.js:83-89 | an e-mail field is clear exactly when the address passes the shared check |
| Rules.EmailIsFirstFailure | js/main.js:83-89 | the empty/invalid chain is the first failure of its two rules |
| Rules.EmailSlotText | js/main.js:83-89 | the e-mail slot shows no text exactly when the address matches the pattern |
| Site.NavMenu.ToggleMenu | js/main.js:17-20 | the icon click flips both `active` classes |
| Site.NavMenu.CloseMenu | js/main.js:23-27 | a link click removes both `active` classes |
| Site.ToggleTwice | js/main.js:17-20 | two icon clicks restore both classes, whatever they were |
| Site.NavMenuClient | js/main.js:17-28 | after two icon clicks both classes are as they were before them, and after a link click both are off |
| Site.AuthPanels.ShowRegister | js/main.js:39-43 | the login form is hidden and the registration form shown |
| Site.AuthPanels.ShowLogin | js/main.js:46-50 | the registration form is hidden and the login form shown |
| Site.NomeCheck | js/main.js:73-79 | the name slot is clear exactly when the trimmed name has two characters or more, and reports empty exactly on an empty name |
| Site.NewsletterSlotTexts | js/main.js:60-91 | with the form's texts, both slots show no text exactly when the form accepts |
| Site.NewsletterSlotsClearIff | js/main.js:60-91 | both slots are clear exactly when the trimmed name has two characters or more and the trimmed address matches the pattern; a blank name reports empty |
| Site.NewsletterForm.Submit | js/main.js:60-95 | both fields are checked on trimmed values and both slots written; success, the templated message and the reset happen exactly when both slots are clear, otherwise the inputs and the message are unchanged |
| Site.LoginPasswordCheck | js/main.js:134-140 | the password slot is clear exactly when the trimmed password has six characters or more, and reports empty exactly on an empty one |
| Site.LoginSlotTexts | js/main.js:113-142 | with the form's texts, both slots show no text exactly when the login succeeds |
| Site.LoginSlotsClearIff | js/main.js:113-142 | login succeeds exactly when the trimmed address matches the pattern and the trimmed password has six characters or more; there is no credential lookup |
| Site.LoginForm.Submit | js/main.js:113-150 | both slots are written; the message is shown and the redirect scheduled exactly when both are clear; the inputs are not reset |
| Site.NextEcoPoints | js/main.js:164-170 | a missing or empty entry becomes "10", and the new value is "NaN" exactly when the stored text is non-empty and `parseInt` cannot read it |
| Site.NextEcoPointsAdds | js/main.js:164-170 | a missing or empty entry becomes 10, a readable one grows by 10, an unreadable one stays unreadable |
| Site.NextOfIntString | js/main.js:165-167 | a count written as `String(m)` is rewritten as `String(m + 10)` |
| Site.TwoContributions | js/main.js:164-170 | two clicks from nothing leave "20" |
| Site.LocalStore.RecordContribution | js/main.js:164-170 | the store changes only at "ecoPoints", which takes the next value |
| Registration.NameCheck | js/validacao.js:52-58 | the name slot is clear exactly when the trimmed name has three characters or more, and reports empty exactly on an empty name |
| Registration.PasswordCheck | js/validacao.js:71-80 | the password slot is clear exactly when the untrimmed password has eight characters or more and has a lower-case letter, an upper-case letter and a digit |
| Registration.PasswordIsFirstFailure | js/validacao.js:71-80 | the empty/too-short/weak chain is the first failure of its three rules |
| Registration.ConfirmCheck | js/validacao.js:83-89 | the confirmation slot is clear exactly when the confirmation is non-empty and equals the password |
| Registration.ConfirmIsFirstFailure | js/validacao.js:83-89 | the empty/mismatch chain is the first failure of its two rules |
| Registration.RegistrationSlotsClearIff | js/validacao.js:31-95 | the four slots are clear and the box is checked exactly when the trimmed name has three characters or more, the trimmed address matches, the password is strong and the confirmation equals it |
| Registration.RegistrationSlotTexts | js/validacao.js:31-95 | with the form's texts, the four slots show no text and the box is checked exactly when the registration is accepted |
| Registration.TooShortBeforeWeak | js/validacao.js:71-80 | every non-empty password under eight characters is too short, so "Ab1" and "abc" get the same message |
| Registration.StrongPasswords | js/validacao.js:77 | "Senha123" passes and "senha123" is weak |
| Registration.ConfirmIgnoresPasswordRule | js/validacao.js:83-89 | the confirmation slot does not depend on the password's own rule |
| Registration.RegistrationForm.Submit | js/validacao.js:31-110 | all four fields are checked and all four slots written; success is the conjunction of the four outcomes and the box; the message, the reset and the pending return to login happen exactly then, otherwise the inputs are unchanged |
| Registration.RegistrationForm.OnPasswordInput | js/validacao.js:153-164 | with both fields non-empty the slot reports a mismatch or is cleared; with either empty it is unchanged; nothing else changes |
| Registration.BlurSlotId | js/validacao.js:131 | the slot id is the input id followed by "-error" |
| Registration.BlurCheck | js/validacao.js:136-142 | on blur the slot is clear exactly when the trimmed value is empty or matches the pattern |
| Registration.BlurAgreesWithSubmit | js/validacao.js:129-143 | on a non-empty value the blur check and the submit check agree; on an empty one only the submit complains |
| Registration.ErrorSlots.OnEmailBlur | js/validacao.js:129-143 | an existing slot with the derived id is overwritten, and with no such slot nothing changes |
| Climate.PledgeLabel | js/clima.js:125-133 | the pledge text is never empty, and for "outro" it is the trimmed free text or "Outro compromisso" |
| Climate.PledgeLabelTotal | js/clima.js:125-133 | any value outside the five options gives "Compromisso climático"; the free text matters only for "outro" |
| Climate.CounterValue | js/clima.js:139 | the parsed counter is never 0, since `NaN` and 0 both become 1247 |
| Climate.NextCounterText | js/clima.js:139-141 | the new counter text, without its commas, is `String` of the counter value plus one |
| Climate.CounterRoundTrip | js/clima.js:139-141 | a grouped non-zero count reads back as itself, and the text of 0 reads as 1247 |
| Climate.NextCounterAddsOne | js/clima.js:139-141 | each pledge adds exactly one to the count the page shows (from -1 the new "0" reads as the default) |
| Climate.CounterExampleGrouped | js/clima.js:139-141 | "1,247" becomes "1,248" |
| Climate.CounterExampleDefault | js/clima.js:139-141 | "0" and "" also become "1,248" |
| Climate.AlertTellsOutcome | js/clima.js:114-143 | the missing-field alert, the invalid-address alert and the thanks all differ |
| Climate.AlertText | js/clima.js:114-143 | both rejection alerts start with "Por favor, "; the thanks starts with "Obrigado, " followed by the name |
| Climate.PledgeOutcome | js/clima.js:108-133 | a pledge registers exactly when the trimmed name is non-empty and the trimmed address passes; a missing field is reported before the format |
| Climate.PledgeForm.OnChoiceChange | js/clima.js:90-100 | "outro" shows the input and its label and makes the input required; any other value hides both and makes it optional |
| Climate.PledgeForm.Submit | js/clima.js:105-148 | a rejected pledge changes nothing; a registered one increments the counter, resets the form and hides the input and label, but leaves `required` as it was |
| Climate.PledgeForm.Register | js/clima.js:139-147 | the counter takes the next value, the fields return to their defaults and the input and label are hidden |
| Climate.PledgeForm.ResetForm | js/clima.js:145-147 | the fields return to their defaults, the input and label are hidden, the counter and `required` are unchanged |
| Climate.ChooseOutroAndSubmit | js/clima.js:90-147 | after choosing "outro" and submitting, the input is still required, and it is hidden exactly when the pledge registered |
| MaterialTabs.FindPanel | js/reciclagem.js:29-30 | the first panel with the id, or none |
| MaterialTabs.OnlyActiveCount | js/reciclagem.js:22-30 | a flag vector with only position `k` set has one set flag when `k` is in range, none otherwise |
| MaterialTabs.TabBar.Click | js/reciclagem.js:19-31 | only the clicked button is active, and only the first panel whose id its `data-tab` names |
| MaterialTabs.ClickActivatesOne | js/reciclagem.js:19-31 | exactly one button, and exactly one panel when some panel has the id, is active after a click |
| RecyclingQuiz.Select | js/reciclagem.js:53-57 | the clicked option is selected and no other option of its question is |
| RecyclingQuiz.SelectSpec | js/reciclagem.js:53-57 | after a click exactly that option is selected in its question, other questions' options are untouched, and no mark changes |
| RecyclingQuiz.SelectConsistent | js/reciclagem.js:48-63 | a selection with its answer recorded keeps the answers equal to the selections and at most one selection per question |
| RecyclingQuiz.Mark | js/reciclagem.js:156-165 | an option gains `correct` exactly when it is correct, `incorrect` exactly when it is a selected wrong one, and keeps every other attribute |
| RecyclingQuiz.ClearMarks | js/reciclagem.js:104-106 | every option is unselected and unmarked, and keeps its question and attribute |
| RecyclingQuiz.AnnotateSpec | js/reciclagem.js:156-165 | correct options are marked correct, a selected wrong one incorrect, an unselected wrong one is untouched, no option is marked both ways |
| RecyclingQuiz.AnnotateIdempotent | js/reciclagem.js:156-165 | showing the results twice marks nothing more |
| RecyclingQuiz.AnnotateConsistent | js/reciclagem.js:156-165 | marking keeps the quiz state consistent |
| RecyclingQuiz.StaleMarkSurvives | js/reciclagem.js:53-57 | an `incorrect` mark survives picking another option of that question |
| RecyclingQuiz.Score | js/reciclagem.js:136 | the score is 0 exactly when no answer on file is right |
| RecyclingQuiz.BoundedSetSize | js/reciclagem.js:136 | a set of question numbers below `n` has at most `n` elements |
| RecyclingQuiz.ScoreBound | js/reciclagem.js:136-137 | the score never exceeds the number of questions |
| RecyclingQuiz.ScoreOverwrite | js/reciclagem.js:60 | overwriting an answer moves the score by at most one, in the direction of the change |
| RecyclingQuiz.TierOf | js/reciclagem.js:141-151 | the top tier exactly when every answer is right; the middle tier exactly when not all are right and `score >= total / 2` holds on JavaScript numbers |
| RecyclingQuiz.TierMonotone | js/reciclagem.js:142-151 | a higher score never gives a lower tier, and the top tier means every answer is right |
| RecyclingQuiz.ScoreExamples | js/reciclagem.js:136-151 | two right out of three is the middle tier; no answers is the lowest tier |
| RecyclingQuiz.NavFor | js/reciclagem.js:122-132 | Previous is disabled exactly at question 0; exactly one of Next and Submit is hidden, Next exactly at the last question |
| RecyclingQuiz.Quiz.constructor | js/reciclagem.js:35-44 | the quiz starts at question 0 with no answers and only question 0 active |
| RecyclingQuiz.Quiz.ShowQuestion | js/reciclagem.js:111-119 | only the question at the index is active |
| RecyclingQuiz.Quiz.UpdateNavigation | js/reciclagem.js:122-132 | the buttons take the state for the current question, and nothing else changes |
| RecyclingQuiz.Quiz.SelectOption | js/reciclagem.js:48-63 | the options become the selection's result, that question's answer is overwritten, the state stays consistent |
| RecyclingQuiz.Quiz.Next | js/reciclagem.js:69-75 | moves one question forward except at the last, keeping the index in range and only the current question active; answers, results, score and message are unchanged |
| RecyclingQuiz.Quiz.Prev | js/reciclagem.js:80-86 | moves one question back except at the first, keeping the index in range and only the current question active; answers, results, score and message are unchanged |
| RecyclingQuiz.Quiz.ShowResults | js/reciclagem.js:135-166 | the shown score is the count of right answers, at most the number of questions, the tier follows it, and the options are marked |
| RecyclingQuiz.Quiz.MarkOptions | js/reciclagem.js:156-165 | every option takes its result marks |
| RecyclingQuiz.Quiz.Restart | js/reciclagem.js:96-107 | back to question 0, no answers, results hidden, only question 0 active, every option unselected and unmarked; the shown score and message are left as they were |
| CollectionPoints.CepFormat | js/reciclagem.js:213-219 | the formatted value has at most nine characters: up to five digits, or five digits, a hyphen and one to three digits |
| CollectionPoints.ValidCep | js/reciclagem.js:175-177 | a CEP is valid when eight digits remain after removing every non-digit; a valid input has at least eight characters |
| CollectionPoints.CepFormatDigits | js/reciclagem.js:213-219 | the formatted value keeps the first eight digits of the input, in order |
| CollectionPoints.CepFormatIdempotent | js/reciclagem.js:213-219 | formatting a formatted value changes nothing |
| CollectionPoints.FormattedIsSearchable | js/reciclagem.js:175-177 | a formatted value is searchable exactly when at least eight digits were typed |
| CollectionPoints.CepFormatEightDigits | js/reciclagem.js:213-219 | "01001000" formats to "01001-000" |
| CollectionPoints.CepFormatExamples | js/reciclagem.js:213-219 | "01001000" and "01001-000" format to "01001-000", and "123" is unchanged |
| CollectionPoints.CepSearch.Search | js/reciclagem.js:174-209 | the search succeeds exactly when the input has eight digits; failure writes the error and leaves the list; success clears it and shows exactly the three sample points |
| CollectionPoints.SearchTwice | js/reciclagem.js:186-187 | the list never accumulates: two successful searches show the three points once |

## Left out

- Chart.js charts (js/clima.js:16-79): a foreign library with floating-point data.
- The random counter bump every 30 seconds (js/clima.js:152-163): timer and `Math.random`.
- The typewriter title effect (js/clima.js:175-188): cosmetic and timer-driven.
- The news-card alert (js/clima.js:166-172), `alert` and `console.log` texts beyond `Climate.AlertText`, `window.location`, `scrollIntoView`, and the `innerHTML` markup of the sample points. The points are records.
- Delayed actions. The redirect after login and the return to the login panel after registration are recorded as pending flags. The newsletter message auto-hide and the button-feedback revert are omitted.
- The contribution button's temporary text and colours (js/main.js:173-182): display only.
- The footer year (js/main.js:194-198): it reads the clock.
- Inline styles: message colours and `display` (a shown flag).
- The texts and colours of `#quiz-message` (js/reciclagem.js:142-151): the quiz records the tier they belong to.
- Locale behaviour of `toLocaleString`: grouping is fixed to commas.
- Numbers are unbounded integers. Neither JavaScript's double precision above 2^53 nor the exponent notation of `String` for large counts is modelled.
- `trim` and `\s` share one fixed whitespace set. Lengths are counts of characters, not of UTF-16 code units. The `.` in the password lookaheads (js/validacao.js:77) does not match a line terminator; the model takes the password to hold none. The e-mail pattern needs no such assumption: it has no `m` flag, and `[^\s@]` excludes line terminators.
- The browser's own validation of `required` inputs before `submit` fires: it lies outside the scripts.
- The page markup is not part of this model. Some initial states that the markup decides are constructor parameters: the quiz navigation and results panel, the option records, the tab targets, the select's default and the counter text. Others are fixed assumptions of the constructors: every tab button and panel starts inactive (`MaterialTabs.TabBar.constructor`), and the pledge's free-text input and its label start hidden and not required (`Climate.PledgeForm.constructor`). The error slot of each blur-checked input is an entry of the slot map.
- RecyclingQuiz.Quiz.SelectOption: does not model reading the question number out of the `q<N>` id with `parseInt`. Each option record carries its question's index instead, and the constructor requires it to be below the number of questions.
- MaterialTabs.TabBar.Click: does not model the exception thrown when no element has the named id, nor an element with that id outside the `.tab-content` panels. The model returns with the clicked button active and no panel active.
- Site.LoginForm.Submit and Registration.RegistrationForm.Submit: `#login-message` is one element that both handlers write (js/main.js:107,143-144 and js/validacao.js:41,98-99). The model gives each form its own field (`LoginForm.message` and `RegistrationForm.loginMessage`), so it does not capture that one form's message overwrites the other's.
- Registration.ErrorSlots.OnEmailBlur and Site.NewsletterForm.Submit: the blur check on the newsletter input writes `#email-error`, the slot the newsletter submit writes (js/main.js:63). The model keeps the blur slots in `ErrorSlots.slots` and the newsletter slot in `NewsletterForm.emailError`, so it does not capture that a blur overwrites the submit's message, or the reverse.
