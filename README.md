# Authentication result pipeline of the pain-tracking app, in Dafny

This project models the authentication core of a small Next.js/Firebase
pain-tracking web application:

- **Credential validation** (`Validation`, from `lib/utils/validation.ts`): the
  e-mail regular expression, the password length rule and the two
  early-return check chains for login and registration. Each chain gives back the
  credentials unchanged or one `VALIDATION_ERROR`.
- **Error taxonomy** (`Errors`, from `lib/errors/index.ts`): the closed
  eleven-member `ErrorCode` enumeration, the `AppError` record, `createError`,
  and the structural type guard `isAppError`. The guard's input is a small
  datatype of JavaScript values (`Dyn`).
- **Auth pipeline** (`Auth`, from `lib/firebase/auth.ts`): the provider-code
  table `mapFirebaseAuthError`, and the users collection of profile documents
  as a class holding a `map<string, User>`. It also has `getUserDocument`,
  `createUserDocument`, and the sequential chains `loginUser`, `registerUser`
  and `logoutUser`. `loginUser` and `registerUser` are methods over the
  collection, each proved equal to a pure specification function (`Login`,
  `Register`), and the lemmas are stated about those functions. `logoutUser`
  touches no document and is a plain function of the sign-out outcome.
- **Session observer** (`Session`, from `hooks/useAuth.ts`): the
  `{user, loading, error}` state is a class. Its `OnNotify` method handles one
  provider notification together with its profile read, and `Teardown` calls
  `unsubscribe`.
- **Login form handlers** (`LoginFormModel`, from
  `components/features/LoginForm.tsx`): `translateErrorMessage`, and the
  `handleInputChange` and `handleSubmit` transitions over the form's four state
  fields. The submitter's outcome is an input. The calls the form makes on the
  outside world are recorded in order.

The records of `types/index.ts` (`User`, `LoginCredentials`,
`RegisterCredentials`) are the datatypes of module `Types`. `Results` holds the
success-or-error type that the source takes from the neverthrow library.

The identity provider is represented by its replies. A sign-in or sign-up is
`Accepted(uid, email)` or `Rejected` with the value it threw; whether that value
carries a `code` is read from the value itself. A store read or write that
throws is an `Option<Dyn>` fault parameter. The creation timestamp is an input string.

Behaviours of the code worth noting:

- `loginUser` does not validate its credentials. Validation happens only in the
  login form (`Auth.LoginSkipsValidation`).
- The fallback code of the provider table is `FIREBASE_ERROR`. The table has no
  row for a disabled account or a network failure
  (`Auth.MapFirebaseAuthErrorNeverYields`).
- `logoutUser` does not consult the table: every failure becomes the one
  logout error.
- When a signed-in user has no profile document, the observer publishes
  `{user: null, loading: false, error: null}`, not an error
  (`Session.MissingProfileIsNotAnError`).
- `password.length` counts UTF-16 code units, so a character beyond the basic
  multilingual plane counts twice (`Validation.SupplementaryPasswordLength`).
- The e-mail check is the regular expression `^[^\s@]+@[^\s@]+\.[^\s@]+$`. It
  accepts a '.' anywhere inside the domain, and it rejects whitespace in the
  domain as well as in the local part.

## Model

| member | source | states |
|---|---|---|
| `Errors.CodesAreClosed` | lib/errors/index.ts:1-13 | the enumeration has exactly eleven distinct members and every `ErrorCode` value is one of them |
| `Errors.CodeValueRoundTrip` | lib/errors/index.ts:1-13 | each member's string value is its own name, and parsing it back gives that member |
| `Errors.CodeValueInjective` | lib/errors/index.ts:1-13 | no two members share a string value |
| `Errors.CodeValues` | lib/errors/index.ts:35 | `Object.values(ErrorCode)` holds eleven distinct strings, and a string is among them iff it names a member |
| `Errors.ParseCode` | lib/errors/index.ts:35 | a string parses to a member exactly when it is that member's value; otherwise no member has it as value |
| `Errors.ValuesOfAllCodes` | lib/errors/index.ts:1-13 | the values of the listed members are distinct and are exactly the strings that name a member |
| `Errors.CreateError` | lib/errors/index.ts:21-27 | the record's code, message and details are exactly the arguments; an omitted details is undefined |
| `Errors.CreatedErrorsAreAppErrors` | lib/errors/index.ts:21-37 | the object literal createError builds (`ToDyn`) passes `isAppError` for every code, message and details; without details its `details` property is undefined |
| `Errors.IsAppError` | lib/errors/index.ts:29-37 | the guard holds iff the value is a non-null object with `code` and `message` properties whose `code` is a string naming an enum member |
| `Errors.NonObjectsAreNotAppErrors` | lib/errors/index.ts:31-32 | `isAppError` is false for null and for every non-object |
| `Errors.MalformedObjectsAreNotAppErrors` | lib/errors/index.ts:33-35 | `isAppError` is false when code or message is missing, or code is not one of the enum values |
| `Errors.GuardedCodeIsAMember` | lib/errors/index.ts:29-37 | a value that passes the guard carries in `code` the value of exactly one member |
| `Validation.Trim` | lib/utils/validation.ts:20 | `trim()` returns the slice of the string between leading and trailing whitespace, neither starting nor ending with whitespace |
| `Validation.TrimEmptyIffAllWhitespace` | lib/utils/validation.ts:20 | trimming leaves nothing iff every character is whitespace |
| `Validation.IsBlank` | lib/utils/validation.ts:20 | `!email.trim()` holds iff every character of the e-mail is whitespace |
| `Validation.ValidateEmail` | lib/utils/validation.ts:6-9 | `validateEmail` holds iff the anchored regex `^[^\s@]+@[^\s@]+\.[^\s@]+$` matches |
| `Validation.FirstAtSplitDecidesRegex` | lib/utils/validation.ts:7 | cutting at the first '@' accepts exactly the strings the anchored e-mail regex matches |
| `Validation.SplitMatchesRegex` | lib/utils/validation.ts:7 | every string the first-'@' cut accepts can be cut into local part, '@', domain segment, '.', last segment, each non-empty without whitespace or '@' |
| `Validation.RegexMatchSplits` | lib/utils/validation.ts:7 | every string the regex matches, at whichever '.' of the domain, is accepted by the first-'@' cut |
| `Validation.ValidateEmailCharacterised` | lib/utils/validation.ts:6-9 | an e-mail is valid iff it has exactly one '@', no whitespace, a non-empty local part, and a domain with a '.' that has text on both sides |
| `Validation.AcceptsPlainAddress` | tests/unit/lib/validation.test.ts:9 | "test@example.com" is accepted |
| `Validation.AcceptsDottedLocalPart` | tests/unit/lib/validation.test.ts:10 | "user.name@domain.co.jp" is accepted |
| `Validation.AcceptsPlusInLocalPart` | tests/unit/lib/validation.test.ts:11 | "firstname+lastname@company.org" is accepted |
| `Validation.AcceptsHyphenInDomain` | tests/unit/lib/validation.test.ts:12 | "test123@test-domain.com" is accepted |
| `Validation.RejectsAddressWithoutAt` | tests/unit/lib/validation.test.ts:23 | "invalid-email" is rejected |
| `Validation.RejectsEmptyLocalPart` | tests/unit/lib/validation.test.ts:24 | "@domain.com" is rejected |
| `Validation.RejectsEmptyDomain` | tests/unit/lib/validation.test.ts:25 | "test@" is rejected |
| `Validation.RejectsDotsWithoutAt` | tests/unit/lib/validation.test.ts:26 | "test.domain.com" is rejected |
| `Validation.RejectsSpaceInLocalPart` | tests/unit/lib/validation.test.ts:27 | "test @domain.com" is rejected |
| `Validation.RejectsDomainWithoutDot` | tests/unit/lib/validation.test.ts:28 | "test@domain" is rejected |
| `Validation.RejectsEmptyAddress` | tests/unit/lib/validation.test.ts:29 | the empty string is rejected |
| `Validation.Utf16Length` | lib/utils/validation.ts:13 | `length` counts UTF-16 code units: between one and two per character, and one per character exactly when all are in the basic plane |
| `Validation.Utf16LengthOfChar` | lib/utils/validation.ts:13 | a basic-plane character has length one and any other character length two |
| `Validation.Utf16LengthConcat` | lib/utils/validation.ts:13 | the length of a concatenation is the sum of the lengths, so `length` is the per-character count summed |
| `Validation.ValidatePassword` | lib/utils/validation.ts:12-14 | the password passes iff its UTF-16 length is at least six: six characters always pass, a passing password has at least three characters, and within the basic plane the rule is six characters |
| `Validation.MixedPasswordLength` | lib/utils/validation.ts:13 | "ab" followed by two supplementary-plane characters has length six and passes, while "abcd" does not |
| `Validation.PasswordBoundary` | lib/utils/validation.ts:12-14 | six characters pass the password rule and five do not |
| `Validation.SupplementaryPasswordLength` | lib/utils/validation.ts:13 | three characters beyond the basic plane have length six and pass; three basic-plane characters do not |
| `Validation.RegisterAcceptsSupplementaryPassword` | lib/utils/validation.ts:36-60 | registration accepts a confirmed password of three supplementary-plane characters |
| `Validation.ValidateLoginCredentials` | lib/utils/validation.ts:17-33 | ok iff the e-mail is not blank, matches the format, and the password is non-empty; ok returns the input unchanged; the first failing check (blank, format, empty password) decides the VALIDATION_ERROR message |
| `Validation.ValidateRegisterCredentials` | lib/utils/validation.ts:36-60 | ok iff additionally the password has length six or more and equals its confirmation; ok returns the input unchanged; the first failing check (blank, format, empty, short, mismatch) decides the VALIDATION_ERROR message |
| `Validation.RejectsMalformedLoginEmail` | tests/unit/lib/validation.test.ts:82-92 | login credentials with "invalid-email" give the format error |
| `Validation.EmptyLoginPasswordIsRequired` | lib/utils/validation.ts:17-33 | for every well-formed address, an empty password gives the password-required error |
| `Validation.RejectsEmptyLoginPassword` | tests/unit/lib/validation.test.ts:95-105 | a valid address with an empty password gives the password-required error |
| `Validation.BlankIsNotEmail` | lib/utils/validation.ts:20-26 | a blank e-mail never passes the format check, so the blank check only chooses the message |
| `Validation.WhitespaceEmailIsRequired` | lib/utils/validation.ts:20-22 | a whitespace-only e-mail gives the "メールアドレスを入力してください" error, not the format error |
| `Validation.LoginEmailFailureIgnoresPassword` | lib/utils/validation.ts:20-30 | once the e-mail fails, the password plays no part in the login result: only the first failure is reported |
| `Validation.LoginIgnoresPasswordLength` | lib/utils/validation.ts:17-33 | login validation never checks length: a valid e-mail with a one-character password is ok |
| `Validation.RegisterEmptyPasswordIsRequired` | lib/utils/validation.ts:47-49 | registration with an empty password reports "パスワードを入力してください", whatever the confirmation |
| `Validation.RegisterShortPasswordReported` | lib/utils/validation.ts:51-57 | a short non-empty password is reported before the confirmation is compared |
| `Validation.RegisterStricterThanLogin` | lib/utils/validation.ts:17-60 | credentials that pass registration validation also pass login validation |
| `Auth.MapFirebaseAuthError` | lib/firebase/auth.ts:16-32 | a code in the provider table gives that table's error; any other code gives FIREBASE_ERROR with the provider's message and `{code}` as details |
| `Auth.AccountErrorsIndistinguishable` | lib/firebase/auth.ts:18-20 | 'auth/user-not-found' and 'auth/wrong-password' give the same INVALID_CREDENTIALS error, whatever the provider's messages |
| `Auth.MapFirebaseAuthErrorClassifies` | lib/firebase/auth.ts:16-32 | the mapping is total; FIREBASE_ERROR exactly for unlisted codes; listed codes give a fixed message with no details |
| `Auth.MapFirebaseAuthErrorNeverYields` | lib/firebase/auth.ts:16-32 | the table never yields UNAUTHORIZED, NOT_FOUND, VALIDATION_ERROR, NETWORK_ERROR or USER_NOT_FOUND; disabled-account and network codes fall to FIREBASE_ERROR |
| `Auth.ProviderError` | lib/firebase/auth.ts:86-91 | only a thrown object with a listed string `code` escapes FIREBASE_ERROR, and gets the table's error; another object with a `code` keeps its message and `{code}`; any other thrown value gives the step's own message with the value as details |
| `Auth.NewUser` | lib/firebase/auth.ts:36-40 | the new profile's id is the provider uid, its e-mail the provider e-mail, its createdAt the given timestamp |
| `Auth.Fetch` | lib/firebase/auth.ts:62-75 | a read fault gives the "ユーザー情報の取得に失敗しました" FIREBASE_ERROR; otherwise the document stored under the id, or null when there is none |
| `Auth.Create` | lib/firebase/auth.ts:35-59 | a successful write stores the new profile under its uid and returns it; a failing one returns the save error and leaves the collection unchanged; keys stay equal to ids |
| `Auth.UsersCollection.constructor` | lib/firebase/auth.ts:44 | the users collection starts from a given set of documents, each stored under its own id |
| `Auth.UsersCollection.GetUserDocument` | lib/firebase/auth.ts:62-75 | the read gives what `Fetch` specifies and changes nothing |
| `Auth.UsersCollection.CreateUserDocument` | lib/firebase/auth.ts:35-59 | the collection and the result after the write are what `Create` specifies |
| `Auth.Login` | lib/firebase/auth.ts:78-117 | a failed login writes nothing; a rejected sign-in is classified by the handler; a successful one returns the profile stored under the signed-in uid, keeping documents keyed by id |
| `Auth.Register` | lib/firebase/auth.ts:120-153 | a failed registration writes nothing; a successful one returns the new profile of the signed-up identity, stored under its uid |
| `Auth.LoginUser` | lib/firebase/auth.ts:78-117 | sign-in with the raw credentials, then profile read, then write if absent; result and new collection are `Login`'s |
| `Auth.RegisterUser` | lib/firebase/auth.ts:120-153 | sign-up, then an unconditional profile write; result and new collection are `Register`'s |
| `Auth.LogoutUser` | lib/firebase/auth.ts:156-173 | ok iff sign-out does not throw; every failure is FIREBASE_ERROR "ログアウトに失敗しました" with the thrown value as details |
| `Auth.LoginRejected` | lib/firebase/auth.ts:86-99 | a rejected sign-in reads and writes nothing; without a code it is FIREBASE_ERROR "ログインに失敗しました", with a string code it is the table's error |
| `Auth.LoginErrorWithoutCode` | tests/unit/lib/auth.test.ts:46-57 | a plain `Error` whose message is 'auth/wrong-password' has no code, so login gives FIREBASE_ERROR "ログインに失敗しました" |
| `Auth.RegisterRejectedWithoutCode` | lib/firebase/auth.ts:128-141 | a sign-up rejected without a code gives FIREBASE_ERROR "ユーザー登録に失敗しました" and writes nothing |
| `Auth.LoginExistingProfile` | lib/firebase/auth.ts:104-116 | with a stored profile, login returns it and leaves the collection unchanged |
| `Auth.LoginCreatesMissingProfile` | lib/firebase/auth.ts:110-113 | with no stored profile, login writes `{id: uid, email, createdAt}` under the uid and returns it |
| `Auth.LoginFetchFailure` | lib/firebase/auth.ts:104-108 | a failing profile read is returned unchanged and no write happens |
| `Auth.LoginKeepsStoredProfiles` | lib/firebase/auth.ts:78-117 | login never removes or alters a stored profile; at most it adds the signed-in uid |
| `Auth.LoginTwice` | lib/firebase/auth.ts:104-116 | after a successful login, a second login as the same uid returns the same profile and writes nothing |
| `Auth.RegisterOverwrites` | lib/firebase/auth.ts:143-152 | registration writes without a lookup, replacing whatever was stored under the uid |
| `Auth.RegisterThenLogin` | lib/firebase/auth.ts:104-153 | after a successful registration, a login as the same uid returns the registered profile, same id and e-mail, and writes nothing |
| `Auth.LoginNeverReportsValidation` | lib/firebase/auth.ts:78-117 | no error loginUser returns has code VALIDATION_ERROR |
| `Auth.LoginSkipsValidation` | tests/unit/lib/auth.test.ts:59-70 | credentials the validator rejects still reach the provider through loginUser; a provider rejecting their address with 'auth/invalid-email' gives INVALID_EMAIL |
| `Session.Resolve` | hooks/useAuth.ts:31-58 | a notification's state: no user gives `{null, false, null}`; a read that succeeds gives `{fetched, false, null}`; a failed read gives `{null, false, message}`; loading is false and user and error are never both set |
| `Session.ResolvedUserIsStored` | hooks/useAuth.ts:33-47 | a published user is the profile stored under the uid; an error is published iff the read fails, and it is the fetch message |
| `Session.MissingProfileIsNotAnError` | hooks/useAuth.ts:33-40 | a signed-in user without a profile document gives `{null, false, null}` |
| `Session.AuthObserver.constructor` | hooks/useAuth.ts:23-30 | the initial state is `{null, true, null}` and the subscription is live |
| `Session.AuthObserver.OnNotify` | hooks/useAuth.ts:30-59 | each notification replaces the whole state with `Resolve` of it alone; the store is only read |
| `Session.AuthObserver.Teardown` | hooks/useAuth.ts:61 | cleanup calls `unsubscribe` exactly once and keeps the last state |
| `Session.MountNotifyTwiceUnmount` | tests/unit/hooks/useAuth.test.ts:13-77 | one mount: the initial state is loading, each of two notifications ends loading and gives the state `Resolve` derives from it alone, and unmount calls unsubscribe once |
| `LoginFormModel.TranslateErrorMessage` | components/features/LoginForm.tsx:47-56 | 'Invalid credentials' and 'Network error' become their Japanese sentences; every other message is returned unchanged |
| `LoginFormModel.TranslateIdempotent` | components/features/LoginForm.tsx:47-56 | translating an already translated message changes nothing |
| `LoginFormModel.ValidationMessagesUntranslated` | components/features/LoginForm.tsx:66-72 | the validator's messages are shown as they are |
| `LoginFormModel.WithField` | components/features/LoginForm.tsx:29-32 | only the named field of `formData` takes the new value |
| `LoginFormModel.ClearError` | components/features/LoginForm.tsx:35-40 | the named field's error becomes empty and no other entry changes |
| `LoginFormModel.SubmitMessage` | components/features/LoginForm.tsx:66-108 | the general error after submit: the translated validation message, nothing on success, the translated error of an err result, or "予期しないエラーが発生しました" after a throw |
| `LoginFormModel.SubmitEffects` | components/features/LoginForm.tsx:66-104 | an invalid form calls nothing; a valid one calls `onSubmit(email, password)` or `loginUser(formData)` exactly once; only an ok result then calls `onSuccess` or navigates to '/dashboard' |
| `LoginFormModel.LoginForm.constructor` | components/features/LoginForm.tsx:19-25 | the form starts with empty fields, no errors, not submitting and no general error |
| `LoginFormModel.LoginForm.HandleInputChange` | components/features/LoginForm.tsx:27-44 | updates only the named field, clears that field's error and the general error, and changes nothing else |
| `LoginFormModel.LoginForm.HandleSubmit` | components/features/LoginForm.tsx:58-112 | validates the current data; the general error and the calls made are `SubmitMessage` and `SubmitEffects`; errors are cleared and `isSubmitting` ends false on every path |
| `LoginFormModel.LoginForm.Proceed` | components/features/LoginForm.tsx:60-72 | on a validation failure shows the translated message and returns; otherwise submits; `isSubmitting` ends false |
| `LoginFormModel.LoginForm.Submit` | components/features/LoginForm.tsx:75-108 | calls the submitter with the current data and acts on its outcome as `SubmitMessage` and `SubmitEffects` say |
| `LoginFormModel.InvalidFormCallsNothing` | components/features/LoginForm.tsx:66-72 | an invalid form calls neither the submitter nor navigation, and shows one of the validator's messages |
| `LoginFormModel.TypeAfterFailedSubmit` | tests/integration/components/LoginForm.test.tsx:117-145 | after a failed submission the translated error shows; typing clears it and keeps the other field |

## Left out

- Firebase SDK calls (`signInWithEmailAndPassword`, `createUserWithEmailAndPassword`, `signOut`, `getDoc`, `setDoc`, `onAuthStateChanged`) are foreign code. They are replaced by their replies, given as parameters.
- Logging (`lib/logger.ts` and every `log.*` call) is console output and has no effect on results.
- `new Date().toISOString()` is a clock read. The timestamp is an input string.
- Asynchronous interleaving: the observer's callback awaits a read, so overlapping notifications could resolve out of order. Each notification is handled atomically here.
- Rendering: the JSX of the login form, `components/ui/Button.tsx`, `components/ui/Input.tsx`, `app/login/page.tsx` and `app/layout.tsx` are not part of this model. Neither are configuration (`lib/firebase/config.ts`, `lib/firebase/test-config.ts`) and the pain-log types.
- Auth.ProviderError: a thrown object with a `code` whose `message` is missing or not a string gets the empty string as message; in JavaScript the AppError would carry that non-string value.
- Validation.Utf16Length: strings are sequences of Unicode scalar values, so a JavaScript string holding a lone surrogate code unit is not represented.
- `firebaseUser.email!` is taken to be a string: a provider user without an e-mail is not represented.
- Errors.Dyn: JavaScript numbers are integers, and functions are not represented. `in` on an object is read as own-property membership, without the prototype chain.
- LoginFormModel.LoginForm.HandleSubmit: a throw from `onSuccess` itself, or from calling `isOk` on a malformed submitter result, is covered only as a submitter throw, before `onSuccess` is called.
- `isSubmitting` being true while the submitter is pending is not observable in a model where the submitter's outcome is given at once.
- Session.AuthObserver.Teardown: requires a live subscription, because React runs the effect's cleanup once per mount; a second teardown is not modelled.
- The form's `errors` map is only ever cleared by these handlers. No handler writes a field error.
