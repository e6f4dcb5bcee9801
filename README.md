# Login view of the real-estate site, modelled in Dafny

The site's login view (`src/auth/login/login.tsx`) is a form with an email
field and a password field. It checks the fields on the client side and
simulates the login call with a random outcome. It also counts failed
attempts, locks the form for five minutes after the fifth failure, and shows
a queue of floating alerts that expire oldest first.

This project models that behaviour and proves the rules the view follows.

- `text.dfy` (module `Text`) covers the JavaScript primitives the view uses:
  - the `\s` class, meaning the WhiteSpace and LineTerminator code points of
    ECMA-262, which is also the set `trim()` removes;
  - `String.prototype.trim`;
  - `length`, counted in UTF-16 code units;
  - the decimal text of a number inside a template literal.
- `email_format.dfy` (module `EmailFormat`) models `validateEmail`. It is a
  scanner that reads the address one character at a time. It is proved equal
  to what the regular expression `^[^\s@]+@[^\s@]+\.[^\s@]+$` means, and to
  the shape `L + "@" + R`.
- `form_validation.dfy` (module `FormValidation`) models `validateForm`'s
  per-field checks as pure functions, with lemmas for each rule.
- `alert_queue.dfy` (module `AlertQueue`) models the alert list. `addAlert`
  pushes at the tail and the expiry timer drops the head. Lemmas prove the
  queue is first in, first out.
- `lockout.dfy` (module `Lockout`) models the failed-attempt counter and the
  block flag, with the invariant "blocked exactly at five failures, never
  more than five".
- `login_view.dfy` (module `LoginView`) holds the class `LoginView`. Its
  fields are the view's state: `form`, `errors`, `alerts`,
  `failedAttempts`, `isBlocked` and `isLoading`. Each one is updated in place
  by one method per handler or timer callback:
  - `Submit` is `handleSubmit`;
  - `Resolve` is the 1500 ms callback;
  - `Unblock` is the 300000 ms callback;
  - `ExpireHead` is the alert timer;
  - `InputChange`, `KeyPress`, `ClearForm` and `KeyDown` are the input
    handlers and the window's Escape listener.

Some things outside the view become method parameters:
- The random outcome (`Math.random() > 0.5`) is the `success` parameter of
  `Resolve`.
- The clock reading that becomes an alert's id (`Date.now()`) is the `now`
  parameter.
- Timers do not exist in the model. A timer firing is a call of its event
  method.

Strings are `seq<char>` of Unicode scalar values. The password's length is
compared in UTF-16 code units (`Utf16Length`), as JavaScript's `length` is.
The regular expression has no `u` flag, so it matches code units. A code
point outside the Basic Multilingual Plane is two surrogate code units, and
both of them are in `[^\s@]`. So, for well-formed strings, matching on
scalar values accepts exactly the same strings.

Facts about the code that the model keeps:
- The expiry timer is cancelled and re-armed on every change of `alerts`,
  pushes included (login.tsx:39-46). Timing is outside the model:
  `ExpireHead` is the timer firing.
- A successful login resets neither the fields nor the failed-attempt count
  (login.tsx:93-95), and neither does `Resolve`.
- Alert ids come from `Date.now()` (login.tsx:73) and can repeat. The model
  claims no uniqueness.
- Between events `isBlocked <==> failedAttempts == 5` and
  `failedAttempts <= 5` hold (login.tsx:97-107). `LoginView.Valid` states
  this and every event method keeps it.

## Model

| member | source | states |
|---|---|---|
| Text.Trim | src/auth/login/login.tsx:56 | `trim()` returns the infix of `s` between its leading and trailing whitespace. The two dropped runs are all whitespace. The result starts and ends with non-whitespace. It is empty exactly when `s` is all whitespace. A string without surrounding whitespace is unchanged. |
| Text.TrimIdempotent | src/auth/login/login.tsx:121 | Trimming an already trimmed email changes nothing. |
| Text.TrimNoWhitespace | src/auth/login/login.tsx:56 | A string with no whitespace at all is its own trim. |
| Text.Utf16Length | src/auth/login/login.tsx:64 | `password.length` counts UTF-16 code units. It lies between `|s|` and `2|s|`, is zero exactly for the empty string, and equals `|s|` for text inside the Basic Multilingual Plane. |
| Text.Decimal | src/auth/login/login.tsx:109 | `${newAttempts}` is a non-empty string of decimal digits with no leading zero. |
| Text.DecimalRoundTrip | src/auth/login/login.tsx:109 | Reading back the digits of `${n}` gives `n`. |
| EmailFormat.ValidEmailIffShape | src/auth/login/login.tsx:48-51 | `validateEmail(s)` holds iff `s = L + "@" + R`. `L` is non-empty with no whitespace and no `@`. `R` has no whitespace and no `@`, and has a `.` at an index strictly between 0 and `|R| - 1`. |
| EmailFormat.ValidEmailIffRegex | src/auth/login/login.tsx:49-50 | The scanner accepts exactly what `^[^\s@]+@[^\s@]+\.[^\s@]+$` matches: `A + "@" + B + "." + C` with `A`, `B`, `C` non-empty runs of `[^\s@]`. |
| EmailFormat.ShapeIffRegex | src/auth/login/login.tsx:49 | The shape `L + "@" + R` and the regex decomposition `A@B.C` describe the same strings. |
| EmailFormat.ValidEmailFacts | src/auth/login/login.tsx:48-51 | An accepted address has no whitespace and exactly one `@`. It has at least five characters and is unchanged by `trim()`. |
| FormValidation.SampleAddressValid | src/auth/login/login.tsx:48-51 | `a@b.com` passes the format check and is its own trim. |
| FormValidation.EmailErrorRules | src/auth/login/login.tsx:56-60 | There are three cases. "Required" is given exactly when the email is blank after trimming. "Invalid format" is given exactly when it is not blank and lacks the `L@R` shape. No error is given exactly when it has the shape. The cases are mutually exclusive. |
| FormValidation.PasswordErrorRules | src/auth/login/login.tsx:62-66 | "Required" is given exactly for the empty password. "Too short" is given exactly for a non-empty password shorter than 3 code units. No error is given exactly for a length of at least 3, which includes every password of 3 or more characters. |
| FormValidation.ValidIff | src/auth/login/login.tsx:53-70 | The form is valid (no key in the new errors) exactly when the email has the `L@R` shape and the password has at least 3 code units. |
| FormValidation.TrimmedEmailRequired | src/auth/login/login.tsx:56-57 | For an email stored through the input handler (already trimmed), "required" is given exactly when it is empty. |
| FormValidation.MessagesDistinct | src/auth/login/login.tsx:57-65 | The two email messages differ from each other, and so do the two password messages. |
| FormValidation.ScenarioBothEmpty | src/auth/login/login.tsx:53-70 | Empty email and empty password give both "required" errors. |
| FormValidation.ScenarioBadEmail | src/auth/login/login.tsx:53-70 | `bad-email` with `abcdef` gives only the format error. |
| FormValidation.ScenarioShortPassword | src/auth/login/login.tsx:53-70 | `a@b.com` with `ab` gives only the "too short" error. |
| AlertQueue.Push | src/auth/login/login.tsx:72-75 | `[...prev, a]` keeps the old queue as its prefix and has `a` as its one new, last element. |
| AlertQueue.DropHead | src/auth/login/login.tsx:42 | `prev.slice(1)` on a non-empty queue is the queue without its head. On an empty queue it is empty. |
| AlertQueue.PushAllAppends | src/auth/login/login.tsx:72-75 | Pushing alerts one by one appends them in order. |
| AlertQueue.ExpireIsFifo | src/auth/login/login.tsx:39-46 | `k` expiries remove exactly the `k` oldest alerts, oldest first, and keep the rest in order. |
| AlertQueue.ExpireAll | src/auth/login/login.tsx:39-46 | Expiring at least as often as there are alerts removes all of them, in order, and leaves the queue empty. |
| AlertQueue.PushThenExpire | src/auth/login/login.tsx:42-74 | On a non-empty queue, a push does not change which alert expires next. |
| AlertQueue.PushedExpireInOrder | src/auth/login/login.tsx:39-75 | Alerts pushed into an empty queue expire in the order they were pushed, until none are left. |
| Lockout.RecordFailure | src/auth/login/login.tsx:97-101 | A failure adds exactly one to the count. The view is blocked afterwards iff it was already blocked or the new count is at least 5. |
| Lockout.RecordFailureKeepsInv | src/auth/login/login.tsx:97-107 | A failure recorded while not blocked keeps `blocked <==> count == 5` and `count <= 5`, and it blocks exactly when it is the fifth failure. |
| Lockout.FailuresFromUnlocked | src/auth/login/login.tsx:97-107 | After `k <= 5` consecutive failures from `(0, false)`, the state is `(k, k == 5)`: four failures leave the view open and the fifth blocks it. |
| Lockout.FailuresStep | src/auth/login/login.tsx:97-101 | One more failure after `k` consecutive failures is the state after `k + 1` of them. |
| LoginView.FailedAttemptMessageCarriesCount | src/auth/login/login.tsx:109 | The "incorrect credentials" message is its fixed prefix, then the decimal count, then `/5`, and the digits read back as the count. |
| LoginView.LoginView.constructor | src/auth/login/login.tsx:21-30 | The view mounts with empty fields, no errors, no alerts, count 0, not blocked, not loading. The invariant holds. |
| LoginView.LoginView.AddAlert | src/auth/login/login.tsx:72-75 | The alert list becomes `old + [Alert(now, message, kind)]` and nothing else changes. |
| LoginView.LoginView.ExpireHead | src/auth/login/login.tsx:39-46 | The alert list becomes `old.slice(1)`, so only the head is removed, and nothing else changes. |
| LoginView.LoginView.ValidateForm | src/auth/login/login.tsx:53-70 | The stored errors are replaced wholesale by the newly computed ones. The result is true iff neither field has an error. |
| LoginView.LoginView.Submit | src/auth/login/login.tsx:77-88 | While blocked, it appends exactly one "account blocked" alert and does not validate. Count, block, errors, loading flag and fields stay unchanged. Otherwise it stores the new errors, adds no alert, and starts loading iff the form is valid. The invariant is kept. |
| LoginView.LoginView.Resolve | src/auth/login/login.tsx:90-114 | On success it appends one success alert and leaves the count and the block unchanged. On failure the count goes up by exactly 1 and the view is blocked iff the new count is 5. Then one alert is appended: the lockout alert at 5, otherwise the attempt alert with the count. Loading ends false and the invariant is kept. |
| LoginView.LoginView.Unblock | src/auth/login/login.tsx:103-107 | The lockout becomes `(0, false)` and one info alert is appended. The invariant holds. |
| LoginView.LoginView.InputChange | src/auth/login/login.tsx:117-126 | A change to the email stores `trim(v)`. A change to the password stores `v` unchanged. Only the changed field's error is blanked. The other field's value and error are unchanged. |
| LoginView.LoginView.KeyPress | src/auth/login/login.tsx:128-132 | Enter submits only when the view is not blocked and not loading. Then it has `Submit`'s effect. Otherwise nothing changes. |
| LoginView.LoginView.ClearForm | src/auth/login/login.tsx:134-140 | When not blocked, both fields are emptied and all errors cleared. When blocked, nothing changes. |
| LoginView.LoginView.KeyDown | src/auth/login/login.tsx:142-147 | Escape clears the form (subject to `ClearForm`'s guard). Any other key changes nothing. |
| LoginView.FiveRejectedLogins | src/auth/login/login.tsx:77-115 | For any email and password that pass validation once typed in, five submissions on a freshly mounted view that each resolve as failures leave the view blocked with count 5, and the last alert is the lockout alert. |
| LoginView.RejectedLogin | src/auth/login/login.tsx:77-115 | After `k < 5` rejected logins the lockout state is `Failures((0, false), k)`; one more submit-and-fail round makes it `Failures((0, false), k + 1)`, keeps the credentials valid and ends with that failure's alert. |
| LoginView.FailedLogin | src/auth/login/login.tsx:77-115 | One submission of valid credentials on an open view, resolved as a failure, applies `RecordFailure` to the lockout state and ends with the matching failure alert, with no request left in flight. |
| LoginView.LockedAfterFive | src/auth/login/login.tsx:97-102 | After five rejected logins from mounting, the view is blocked with count 5 and its last alert is the lockout alert. |
| LoginView.ValidScenarioCredentials | src/auth/login/login.tsx:53-70 | `a@b.com` typed into the email field and `secret` into the password field pass validation. |

## Left out

- Rendering: the JSX, inline styles, icons and colours
  (login.tsx:153-333), and the static landing page
  `src/views/common/index.tsx`. They are presentation with no logic.
- Timer delays and scheduling: 100, 1500, 6000 and 300000 ms, and the
  expiry timer's cancel-and-re-arm on each change of `alerts`
  (login.tsx:41-44). Time is not modelled. Each callback is an event method
  that the environment may call once its timer exists: `Resolve` while a
  request is in flight, `Unblock` while blocked, `ExpireHead` at any time.
- `Math.random()` (login.tsx:91) and `Date.now()` (login.tsx:73). They become
  the parameters `success` and `now`.
- Focus and refs (login.tsx:31-37, 138). These are DOM side effects.
- The `window` keydown subscription and its removal (login.tsx:142-151).
  These are DOM side effects. Only "Escape calls clear form" is modelled, as
  `KeyDown`.
- `console.log` (login.tsx:95), which is output. The show-password toggle
  (login.tsx:25, 281), which decides nothing.
- React's batching of state updates and stale closures. An example is the
  count captured by the 1500 ms callback. These are event-loop
  interleavings. The model reads the current state at each event.
- LoginView.LoginView.Submit: requires that no request is in flight. Its
  only callers ensure this: the button is disabled while loading
  (login.tsx:298) and Enter is guarded (login.tsx:129). A second submission
  during a request would schedule a second callback, and that overlap is not
  modelled.
- The `disabled={isBlocked}` attributes on the inputs (login.tsx:252, 275).
  They keep `handleInputChange` from firing while blocked. `InputChange`
  models the handler itself, which has no guard.
- An error blanked to `''` by `handleInputChange` and an error that is
  absent are both `None`. The view treats either as "no message"
  (login.tsx:123, 256, 287). Only `validateForm` counts keys, and it counts
  them on a fresh object.
- Input strings are taken to be well-formed UTF-16. A JavaScript string can
  hold a lone surrogate, which `seq<char>` cannot express, so the model says
  nothing about such strings.
