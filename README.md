# Auth flows of the gvue scaffold, modelled in Dafny

This project models the account flows of a small Vue + Go web scaffold, from
both sides of the wire:

- **Client screens** (the compiled `Register` and `Reset` Vue components).
  Each has a form, a pure validator that walks its rules in a fixed order and
  stops at the first failure, per-field input handlers, and a submit step.
  The submit step posts the form, then reacts to the answer with a
  notification and a delayed navigation. Calls to the notification service,
  the HTTP client, `helper.setUser` and the router are recorded as an event
  trace. A post waiting for its answer and a pending `setTimeout` callback
  are each counted as one outstanding action.
- **Server handlers** (the Go `User` controller and the user model). A user
  table stands in for MySQL and a key/value map stands in for Redis. There is
  `FindUser`, the sign-link key scheme `user:sign:<type>:<Md5(email)>`,
  `getSignedURL` and `DecodeSignURL`. There are the handlers `Register`,
  `Login`, `SendResetEmail`, `ResetPassword`, `SendVerifyEmail`,
  `VerifyEmail` and `GetProfile`, each a chain of early returns.
  `helper.Md5`, `helper.BuildToken` and the binding validator's `email` rule
  are left uninterpreted: they are function-valued constants.

Files:

- `wrappers.dfy`: `Option` and `Result`.
- `form_rules.dfy`: the email pattern `/^.+@.+$/`, the inclusive 6..15 length
  rule, the rule order and the trace events.
- `register_page.dfy` and `reset_page.dfy`: the two screens.
- `models.dfy`: the table, the sign store and the `Db` class.
- `controllers.dfy`: the `UserController` class.
- `wire.dfy`: how the client bodies meet the server's request structs.

Where the two sides disagree, the model keeps both as written:

- The client requires a name of 6..15 characters. The server binding allows
  3..15 (`Wire.NameBoundsDiffer`).
- The client counts `.length` in UTF-16 code units. The server's `min`/`max` on strings count runes. So a password such as "😀😀😀" has length 6 on the client, which accepts it, and 3 runes on the server, which rejects it. The name bounds still line up, because 6 code units are always at least 3 runes. The model counts both sides as sequence length, so it does not show this case.
- The client also posts `repassword`. JSON decoding drops it, because the
  request structs do not declare it (`Wire.RegisterBody`, `Wire.ResetBody`).

Two points of fidelity:

- gorm's `First` orders by primary key. The table keeps auto-increment ids
  strictly increasing, so "first in the sequence" is "least id"
  (`Models.FindUserLeastId`).
- `FindUser("id", userId)` compares against the id's decimal text.

## Model

| member | source | states |
|---|---|---|
| FormRules.EmailFormatIsRegex | public/js/3.js:152 | The validators' email check holds exactly when the string has no line terminator and has an `@` at an index i with 1 <= i <= length-2. That is the language of `/^.+@.+$/`. |
| FormRules.EmailPatternExamples | public/js/4.js:147 | `"a@@b"` matches. `"@b"`, `"a@"` and strings containing a newline do not. |
| RegisterPage.Validate | public/js/3.js:141-177 | The verdict is Pass exactly when all four rules hold (name length 6..15, email pattern, password length 6..15, repassword equal to password). Otherwise it names a broken rule, and every rule before it in the order name, email, password, match holds. |
| RegisterPage.LengthBoundsInclusive | public/js/3.js:144-166 | Name and password lengths 6 and 15 pass. Lengths 5 and 16 fail on the corresponding rule. |
| RegisterPage.MismatchReportedLast | public/js/3.js:168-174 | A differing confirmation always fails validation. It is reported as the mismatch only when name, email and password length all hold. |
| RegisterPage.RegisterScreen.constructor | public/js/3.js:109-118 | The form starts with all four fields empty. Nothing has been notified, posted or scheduled. |
| RegisterPage.RegisterScreen.Input | public/js/3.js:256-354 | An input event sets the handler's own field to the typed value and leaves the other three fields and the trace unchanged. A composing event changes nothing. |
| RegisterPage.SubmitEventsSpec | public/js/3.js:120-177 | A submit records exactly one event. It is an error notification exactly when some rule is broken. It then carries the message of the broken rule that comes first in the order name, email, password, match. When every rule holds, it is the post of the form to `/register`. |
| RegisterPage.RegisterScreen.HandleSubmit | public/js/3.js:120-124 | When the form validates, it appends one post of the current form to `/register`. Otherwise it appends only the validator's notification, and no request is made. The form is unchanged. |
| RegisterPage.RegisterScreen.Resolve | public/js/3.js:124-131 | A resolved post appends the success notification and `setUser(res)`, and schedules exactly one delayed action. |
| RegisterPage.RegisterScreen.FireTimer | public/js/3.js:131-137 | The delayed action closes every notification, then navigates to `/user`. |
| RegisterPage.SubmitInitialForm | public/js/3.js:109-149 | Submitting the untouched form yields exactly one name-rule notification and no post. |
| RegisterPage.RegisterThenNavigate | public/js/3.js:120-137 | A valid form typed in field by field yields this trace: post of that form, success, `setUser`, close all, navigate to `/user`. |
| ResetPage.Validate | public/js/4.js:144-172 | The verdict is Pass exactly when email pattern, password length 6..15 and match all hold. Otherwise it names the first broken rule in that order, and never the name rule. |
| ResetPage.ValidateIgnoresSign | public/js/4.js:144-172 | The verdict does not depend on the sign. |
| ResetPage.ResetScreen.constructor | public/js/4.js:96-120 | With both query keys present, the form holds the query's email and sign and the button is enabled. Otherwise the form is empty, the button is disabled and exactly one error notification has been raised. |
| ResetPage.ResetScreen.Created | public/js/4.js:107-120 | With both `email` and `sign` in the query, it copies them into the form and leaves `disableBtn` and the trace alone. Otherwise it appends one error notification, sets `disableBtn` and leaves the form unchanged. |
| ResetPage.ResetScreen.Input | public/js/4.js:247-320 | Password and confirmation inputs set only their own field. The email input is disabled, so it changes nothing. |
| ResetPage.ResetScreen.Click | public/js/4.js:329-330 | With the button disabled, a click changes nothing. Otherwise it behaves as `handleSubmit`. |
| ResetPage.SubmitEventsSpec | public/js/4.js:122-172 | A submit records exactly one event. It is an error notification exactly when some rule is broken. It then carries the message of the broken rule that comes first in the order email, password, match. When every rule holds, it is the post of the form to `/password/reset`. |
| ResetPage.ResetScreen.HandleSubmit | public/js/4.js:122-126 | When the form validates, it appends one post of the form to `/password/reset`. Otherwise it appends only the validator's notification. |
| ResetPage.ResetScreen.Resolve | public/js/4.js:126-141 | Only an answer whose message is `"success"` appends the success notification and schedules the delayed action. Any other answer adds nothing. |
| ResetPage.ResetScreen.FireTimer | public/js/4.js:133-139 | The delayed action closes every notification, then navigates to `/login`. |
| ResetPage.EnterWithoutSign | public/js/4.js:113-119 | Entered without `email` or `sign`: the button is disabled, and any number of clicks leaves the trace at the single load notification. |
| ResetPage.EnterWithSign | public/js/4.js:107-112 | Entered with `email=a@b.com&sign=xyz`: the form is pre-filled with both values, the button is enabled and nothing is notified. |
| ResetPage.ResetAnsweredOtherwise | public/js/4.js:126-141 | A valid reset answered with a message other than `"success"` leaves only the post in the trace and schedules nothing. |
| Models.FindUser | app/models/user.go:28-34 | Returns None exactly when no row has the value in the column. Otherwise it returns a row of the table that has the value, with no matching row before it. |
| Models.FindUserLeastId | app/models/user.go:30 | On a table with ordered ids, the row found has the least id among the matching rows (gorm's `First`). |
| Models.FindUserAt | app/models/user.go:28-34 | If index i holds the first matching row, `FindUser` returns that row. |
| Models.Updated | app/models/user.go:37-39 | Saving a row keeps the table's length and its id order. When the saved id is in the table, the saved row is in it afterwards, and every row afterwards is the saved row or a row from before. |
| Models.Decimal | app/controllers/user.go:180 | The decimal text of an id is non-empty, made only of the digits 0-9, and has no leading zero. |
| Models.DecimalInjective | app/controllers/user.go:180 | Two ids with the same decimal text are equal. |
| Models.IdLookupFindsRow | app/controllers/user.go:142 | On an ordered table, looking a row up by its id's decimal text finds exactly that row. |
| Models.UpdatedLookup | app/models/user.go:37-39 | Saving a changed copy of a found row that keeps its id, name and email makes the same lookup return the copy. |
| Models.UpdatedLast | app/models/user.go:37-47 | Saving the row just created replaces only that last row. |
| Models.InsertThenSave | app/models/user.go:42-47 | Creating a row with a fresh name and email under the next id, then saving it: the table ends with the saved copy, ids stay ordered, and names and emails stay unique. |
| Models.UpdatedKeepsUnique | app/models/user.go:37-39 | Saving a copy that keeps name and email preserves uniqueness of names and emails. |
| Models.SignKeysDisjoint | app/models/user.go:84-88 | A reset key never equals a verify key. |
| Models.SignKeyInjective | app/models/user.go:97 | Within one type, equal keys have equal signs. |
| Models.DecodeSignURL | app/models/user.go:124-140 | An unknown type fails with "链接错误" before the store is read. Otherwise it succeeds exactly when the key is present and some user has the stored email, and it fails with "签名不存在或过期~链接错误" whenever the key is absent or no user has the stored email. On success the user is the row `FindUser("email", stored)` returns. |
| Models.SignRoundTrip | app/models/user.go:97-135 | After the key for Md5(u.Email) is stored with u.Email, decoding Md5(u.Email) under the same type yields the first row whose email is u.Email. |
| Models.VerifyKeyInvisibleToReset | app/models/user.go:97-128 | Storing a verify key changes no reset decoding. |
| Models.ResetKeyInvisibleToVerify | app/models/user.go:97-128 | Storing a reset key changes no verify decoding. |
| Models.Db.New | app/models/user.go:42-47 | Appends the row under the next id and advances the id. The sign store is unchanged. |
| Models.Db.Save | app/models/user.go:37-39 | The row with the saved user's id takes all the saved values. Nothing else changes. |
| Models.Db.GetSignedURL | app/models/user.go:91-121 | Any type other than reset or verify fails with "签名失败" and writes nothing. A reset link points at host + `/password/reset` and carries `email` and `sign`. A verify link points at host + `/verification` and carries only `sign`. The sign is Md5(u.Email) for both types. On success the store gains exactly key `user:sign:<t>:<sign>` mapped to u.Email. |
| Models.Db.Expire | app/models/user.go:116 | The 30-minute expiry as a removal of one key. Nothing else changes. |
| Models.ExpiredSignFails | app/models/user.go:116-131 | Once the key of a reset or verify sign is gone, decoding that sign fails with "签名不存在或过期~链接错误". |
| Controllers.UserController.Register | app/controllers/user.go:17-57 | A request breaking the binding is rejected with no change. An existing name fails with "该用户已存在" before the email is checked. A new name with an existing email fails with "该邮箱已被注册". In both cases nothing changes. Otherwise exactly one row is added: the request's name and email, Md5 of the password, and the token built from its id. Names and emails stay unique. |
| Controllers.UserController.Login | app/controllers/user.go:59-87 | A request breaking the binding is rejected. An unknown email fails with "该邮箱用户不存在". A wrong password digest fails with "密码不正确". In those cases nothing changes. Otherwise only that user's token is replaced. |
| Controllers.UserController.SaveLoaded | app/controllers/user.go:80-83 | Saving a changed copy of a loaded row that keeps name and email changes only that row and keeps names and emails unique. |
| Controllers.UserController.SendResetEmail | app/controllers/user.go:89-108 | An unregistered email fails with "该邮箱未注册", writes no sign and sends no mail. Otherwise the reset key is stored and the link to host + `/password/reset` with `email` and `sign` is mailed. The mailed sign decodes, under reset, to the registered user. |
| Controllers.UserController.ResetPassword | app/controllers/user.go:110-138 | A request breaking the binding is rejected. A sign that fails to decode under `reset` answers 400 with the decode error. A decoded user whose email differs from the request answers 400 "链接错误". Otherwise only that user's password changes, to Md5 of the new one. A login with the new password then passes the password check, and the sign still decodes. The sign store is never changed. |
| Controllers.UserController.SendVerifyEmail | app/controllers/user.go:140-152 | An unknown context user answers 401 with no change. Otherwise the verify key is stored and the `sign`-only link to host + `/verification` is mailed. The mailed sign decodes, under verify, to the first row holding the mailed address. |
| Controllers.UserController.VerifyEmail | app/controllers/user.go:154-176 | An empty sign is rejected. A sign that fails to decode under `verify` answers 500 with the error. Otherwise only the decoded user's `EmailVerifiedAt` is set. The sign store is never changed. |
| Controllers.UserController.GetProfile | app/controllers/user.go:178-186 | Answers with a row of the table whose id is the context's `userId` exactly when one exists, and 401 otherwise. At most one row matches, so the answer is that row. |
| Wire.ClientRegisterWithinServerBounds | app/controllers/user.go:17-21 | A registration form the client accepts meets the server's name (3..15) and password (6..15) bounds. |
| Wire.NameBoundsDiffer | public/js/3.js:144 | Names of 3 to 5 characters pass the server binding but fail the client's name rule. |
| Wire.ClientResetWithinServerBounds | app/controllers/user.go:110-114 | A reset form the client accepts meets the server's password bound. |

## Left out

- Render functions, labels, CSS classes and the `CopyRight` footer: static markup.
- Webpack and vue-loader module wrappers: generated build glue.
- `$http`, `$notify`, `$router` and `helper.setUser`: external services. They appear only as trace events. A rejected post has no handler in the source, and none in the model.
- The 2000 ms delay of `setTimeout`: modelled as one pending action, not as time.
- JavaScript `.length` counts UTF-16 code units, while the Go validator counts runes. Both are modelled as sequence length, so characters outside the Basic Multilingual Plane are counted once on both sides.
- Wire.ClientRegisterWithinServerBounds, Wire.ClientResetWithinServerBounds and Wire.NameBoundsDiffer: these hold only for text inside the Basic Multilingual Plane (no character above U+FFFF). For such text, code units and runes coincide. Outside it, the password half of the first two fails, as the example above shows. And a name such as "😀😀😀" has 3 runes, which passes `min=3`, and 6 code units, which passes the client rule too.
- gin's JSON decoding: bodies are already-decoded request values, so malformed JSON is not modelled. The binding tags are predicates. The validator's `email` rule is the uninterpreted `isEmail`.
- gorm and MySQL: the table is a sequence. Database errors are not modelled. A failed `Create` in `Register` answers through `ErrCustomValidateResponse`, whose status the source does not show. A failed `Save` answers 500. Neither answer is in the model. `FindUser` takes one of the three columns the handlers use, not an arbitrary key string. MySQL's numeric coercion of the id string is not modelled. Lookups compare strings exactly: a case- or accent-insensitive collation, which the source does not rule out, would match more rows than `FindUser` does.
- Models.Db.Save: stated only for a row already in the table (gorm would insert otherwise). The handlers only save rows they have loaded.
- Redis: present or absent only. Errors other than "absent" are not modelled.
- The 30-minute TTL: `Db.Expire` removes a key at an arbitrary point.
- vue-router's query values are modelled as strings. A key with no value (`?email&sign=x`) gives `null` and a repeated key gives an array. Both pass the `in` test and are copied into the form unchanged, and neither is modelled.
- `url.Values.Encode`, `url.Parse` and percent-encoding: a link is its path plus its query map, and `url.Parse` never fails here.
- `helper.Md5` and `helper.BuildToken`: uninterpreted, and the error result of `BuildToken` is ignored, as the handlers ignore it.
- Mail bodies (`fmt.Sprintf`), `viper` configuration other than `app.url`, and the mail transport in pkg/helper/email.go: the mail service's answer is a parameter (`mailError`).
- Concurrency between requests: every handler is modelled as one atomic step, run to completion before the next request starts. gin serves each request on its own goroutine, and no lock, transaction or unique index serialises them. So two concurrent `Register` calls with the same name or email can both pass the checks and both insert a row: `UniqueNamesAndEmails` holds only for requests handled one at a time. And gorm's `Save` writes the whole row, so a `Login` that loaded a row before a concurrent `ResetPassword` saved it writes the old password digest back. The frames "only the token changes" and "only the password changes", and the login-after-reset property of `ResetPassword`, assume no such interleaving.
- `go user.SendWelcomeEmail()` in `Register`: it runs concurrently and is not modelled, so after `Register` no verify sign is stored.
- `time.Now()` in `VerifyEmail`: the clock reading is a parameter.
- Serialisation of the user in answers, including the hidden password field: `Json(user)` carries the whole row.
- The `Demo` handler: it is unfinished.
