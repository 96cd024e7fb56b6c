# Web-based code editor: a verified model of its core

This project models the behaviour of the core of a browser-based code editor
and its back end. It has five parts.

- **The editor page's session controller** (`EditorSession`, Editor.js):
  - a fixed catalog of three languages, each with a seed script;
  - the markup, stylesheet and script buffers;
  - the preview document, composed from the markup and the stylesheet;
  - the selected language, theme, result tab, output text and loading flag;
  - the run lifecycle against the execution endpoint.
  The page is a `class Session` whose methods are the page's event handlers.
  Its invariant is that the preview is never stale.
- **The code-execution task** (`CodeExecution`, tasks.py):
  - the language name is lower-cased and dispatched to a script file and an interpreter;
  - the outcome of the subprocess becomes one output string.
- **Username generation** (`UserSerializer`, the user serializer, serializers.py):
  - a base name is derived from the full name;
  - a `while` loop appends `_1`, `_2`, … until no other record holds the name.
  It is proved to terminate after at most as many rounds as there are names
  taken, and to pick the least free counter.
- **The account endpoints** (`AccountViews`, views.py): registration, logout,
  password-reset request, password-reset confirmation and password change. Each
  is modelled as an ordered decision chain over an account table (`Users`).
- **The sign-up form** (`SignupForm`, Signup.js):
  - the form fields;
  - the client-side password-match check;
  - the request body;
  - the error message flattened from the server's error object.

Shared helpers live in `Wrappers` (an `Option` type and map lookup) and
`Text`:
- an ASCII model of lower-casing and upper-casing;
- decimal numerals with a proved parse/print round trip;
- joining strings with a separator.

Foreign code is not modelled itself. It appears as a parameter or as a value:
- Django's `slugify`, password hashing, the token generator and the JWT blacklist;
- the mail server and the temporary directory;
- the subprocess, and the HTTP transport of both front-end pages.

## Model

| member | source | states |
|---|---|---|
| Wrappers.Get | backend/accounts/serializers.py:37 | `dict.get`: a value exactly when the key is present, and then the stored value |
| Text.Lower | backend/editor/tasks.py:18 | ASCII lower-casing: same length, each letter lowered, nothing upper-case left |
| Text.LowerOfLowerCase | backend/editor/tasks.py:18 | a string without upper-case letters is its own lower-case form |
| Text.LowerIdempotent | backend/editor/tasks.py:18 | lower-casing twice is lower-casing once |
| Text.SameLettersIffSameLower | backend/editor/tasks.py:18 | two names lower-case to the same string exactly when they agree letter by letter up to case |
| Text.Capitalize | frontend/online-code-editor/src/Editor.js:90 | `s.charAt(0).toUpperCase() + s.slice(1)`: the first character upper-cased, the rest unchanged, the empty string kept |
| Text.NatToString | backend/accounts/serializers.py:42 | the decimal numeral of a counter is non-empty and all digits |
| Text.ParseNatToString | backend/accounts/serializers.py:42 | reading the numeral back gives the counter |
| Text.NatToStringInjective | backend/accounts/serializers.py:42 | different counters give different numerals |
| Text.Join | frontend/online-code-editor/src/Signup.js:56 | `join`: no parts give the empty string, one part gives that part |
| Text.JoinAppend | frontend/online-code-editor/src/Signup.js:56 | joining two non-empty lists is joining each with one separator between |
| EditorSession.Find | frontend/online-code-editor/src/Editor.js:46 | `find` returns a catalog entry carrying the identifier, and nothing exactly when no entry carries it |
| EditorSession.FindExact | frontend/online-code-editor/src/Editor.js:46 | with distinct identifiers, `find` returns the one entry that carries the identifier |
| EditorSession.CatalogLookup | frontend/online-code-editor/src/Editor.js:9-13 | the catalog has three entries with distinct identifiers; a lookup succeeds exactly for python, javascript and ruby, each giving its own entry |
| EditorSession.Compose | frontend/online-code-editor/src/Editor.js:29-39 | the preview is the fixed head, the stylesheet verbatim, the fixed middle, the markup verbatim, then the fixed tail |
| EditorSession.ComposeDeterminesInputs | frontend/online-code-editor/src/Editor.js:30-37 | if the stylesheets contain no `<`, equal previews come from equal buffers |
| EditorSession.ComposeAmbiguousWithoutEscaping | frontend/online-code-editor/src/Editor.js:30-37 | nothing is escaped, so a stylesheet that closes its own style element gives the same preview as a different pair of buffers |
| EditorSession.RunButtonLabel | frontend/online-code-editor/src/Editor.js:90 | "Running..." while loading; otherwise "Run " and the identifier with its first character upper-cased |
| EditorSession.CatalogRunLabels | frontend/online-code-editor/src/Editor.js:90 | the idle captions are "Run Python", "Run Javascript" and "Run Ruby"; the JavaScript caption differs from its selector label |
| EditorSession.ErrorDetail | frontend/online-code-editor/src/Editor.js:64 | the server's error text when it is present and not empty, else the transport message |
| EditorSession.FailureOutput | frontend/online-code-editor/src/Editor.js:64 | the failure output is "Error executing code: " followed by that detail |
| EditorSession.TransportFailureText | frontend/online-code-editor/src/Editor.js:64 | for every transport message, a failure without a server error text, or with an empty one, shows the prefix followed by that message |
| EditorSession.Session.constructor | frontend/online-code-editor/src/Editor.js:16-39 | the initial buffers; python selected with its seed; empty output; not loading; theme vs-dark; output tab; the preview already composed |
| EditorSession.Session.Button | frontend/online-code-editor/src/Editor.js:89-90 | the run button is disabled exactly while loading, with the caption for the current language and flag |
| EditorSession.Session.EditHtml | frontend/online-code-editor/src/Editor.js:29-39 | the markup buffer takes the edit, the preview is recomposed, and nothing else changes |
| EditorSession.Session.EditCss | frontend/online-code-editor/src/Editor.js:29-39 | the stylesheet buffer takes the edit, the preview is recomposed, and nothing else changes |
| EditorSession.Session.EditCode | frontend/online-code-editor/src/Editor.js:159 | only the script buffer changes |
| EditorSession.Session.SelectTab | frontend/online-code-editor/src/Editor.js:174-185 | only the active tab changes |
| EditorSession.Session.HandleLanguageChange | frontend/online-code-editor/src/Editor.js:41-50 | the selection always takes the new value; the script becomes the matching seed if the catalog has one and is kept otherwise; nothing else changes |
| EditorSession.Session.HandleThemeChange | frontend/online-code-editor/src/Editor.js:70-72 | only the theme changes |
| EditorSession.Session.HandleClearOutput | frontend/online-code-editor/src/Editor.js:74-76 | offered only while the output tab is active, where the clear button is rendered; only the output changes, to the empty string |
| EditorSession.Session.StartRun | frontend/online-code-editor/src/Editor.js:53-60 | loading is switched on (the button is disabled), and the request carries the current script and language |
| EditorSession.Session.FinishRun | frontend/online-code-editor/src/Editor.js:61-67 | success shows the output and selects the output tab; failure shows the failure text and keeps the tab; loading ends either way |
| EditorSession.Session.HandleRunCode | frontend/online-code-editor/src/Editor.js:52-68 | a whole run: the request is built from the state at the click, loading is off afterwards, and the output and tab are as above |
| CodeExecution.RunnerFor | backend/editor/tasks.py:22-70 | the dispatch table: python runs script.py with python, javascript runs script.js with node, ruby runs script.rb with ruby; only javascript and ruby have a missing-interpreter message |
| CodeExecution.OutputFor | backend/editor/tasks.py:27-70 | stdout on return code 0, else stderr; the fixed timeout message; the missing-interpreter message where there is one; otherwise the generic error with the exception text |
| CodeExecution.JoinPath | backend/editor/tasks.py:23 | `os.path.join` of a directory and a file name: the directory, one `/`, then the name |
| CodeExecution.GenericError | backend/editor/tasks.py:35 | "Error executing ", the language's display name, " code: ", then the exception text verbatim |
| CodeExecution.UnsupportedMessage | backend/editor/tasks.py:73 | "Language '", the name verbatim, then "' is not supported yet." |
| CodeExecution.ExecuteCode | backend/editor/tasks.py:9-75 | the name is lower-cased; unsupported names run nothing and are echoed lower-cased; supported ones write exactly the code to the runner's file in the temporary directory and start the interpreter on it with a 5-second limit |
| CodeExecution.DispatchIgnoresCase | backend/editor/tasks.py:18 | two names that agree up to case give the same result |
| CodeExecution.PythonInAnyCase | backend/editor/tasks.py:18-30 | any casing of "python" runs `python script.py` in the temporary directory |
| CodeExecution.CompletedRunOutput | backend/editor/tasks.py:27-64 | after a normal exit of any supported language the output is stdout on return code 0, else stderr |
| CodeExecution.TimeoutIsUniform | backend/editor/tasks.py:27-66 | every supported language reports the same timeout message |
| CodeExecution.PythonIsLowerCase | backend/editor/tasks.py:22 | "python" is unchanged by lower-casing |
| CodeExecution.JavaScriptIsLowerCase | backend/editor/tasks.py:37 | "javascript" is unchanged by lower-casing |
| CodeExecution.RubyIsLowerCase | backend/editor/tasks.py:55 | "ruby" is unchanged by lower-casing |
| CodeExecution.PythonMissingInterpreter | backend/editor/tasks.py:34-35 | Python has no missing-interpreter branch and reports the generic Python error |
| CodeExecution.JavaScriptMissingInterpreter | backend/editor/tasks.py:50-51 | a missing node gives "Node.js is not installed or not found in PATH" |
| CodeExecution.RubyMissingInterpreter | backend/editor/tasks.py:67-68 | a missing ruby gives "Ruby is not installed or not found in PATH" |
| CodeExecution.UnsupportedRunsNothing | backend/editor/tasks.py:72-73 | an unsupported name starts no process, and its result does not depend on any subprocess outcome |
| Users.Usernames | backend/accounts/models.py:19 | the usernames held in the table: every record's username is in it, and every name in it belongs to a record |
| Users.CheckPassword | backend/accounts/views.py:189 | `check_password`: an unusable password accepts nothing |
| Users.SetPassword | backend/accounts/serializers.py:52 | `set_password`: afterwards the given password checks, and no other does |
| Users.NormalizeEmail | backend/accounts/serializers.py:47-51 | the user manager's email normalisation inside `create_user`: the same length, everything up to the last `@` kept, the rest lower-cased; an address without `@` kept |
| Users.NormalizeEmailIdempotent | backend/accounts/serializers.py:47-51 | normalising a normalised address changes nothing |
| Users.NormalizeEmailExample | backend/accounts/serializers.py:47-51 | only the domain's case changes: "A@Ex.IO" is stored as "A@ex.io" |
| Users.SetPasswordChecks | backend/accounts/views.py:189 | a password just set checks against itself and nothing else; an unusable password accepts nothing |
| Users.UserWithEmail | backend/accounts/models.py:11 | with unique emails, the record holding the email, or nothing exactly when no record holds it or the email is missing |
| Users.OwnUsernameFreeForOthers | backend/accounts/models.py:19 | with unique usernames, a user's own username is held by no other record |
| UserSerializer.ReplaceSpaces | backend/accounts/serializers.py:38 | `replace(" ", "_")`: same length, spaces become underscores, other characters kept |
| UserSerializer.BaseUsername | backend/accounts/serializers.py:38 | the base is `slugify` of the full name in which every space has become an underscore and every other character is kept |
| UserSerializer.SpacesAndUnderscoresAlike | backend/accounts/serializers.py:38 | two full names that differ only by a space or an underscore in the same places give the same base |
| UserSerializer.CreateBase | backend/accounts/serializers.py:37-38 | `create` bases the name on the full name, or on the empty string when there is none |
| UserSerializer.EmptyFirstFree | backend/accounts/serializers.py:39-43 | the loop's name is empty exactly when the base is empty and no record holds the empty name |
| UserSerializer.Candidate | backend/accounts/serializers.py:39-42 | the k-th name tried: the base for 0, else the base, "_" and the decimal numeral of k |
| UserSerializer.CandidateInjective | backend/accounts/serializers.py:39-43 | different counters give different names |
| UserSerializer.FirstFreeUnique | backend/accounts/serializers.py:39-43 | at most one counter is the least free one |
| UserSerializer.CandidatesBelowSize | backend/accounts/serializers.py:39-43 | the first n names tried are n different names |
| UserSerializer.TakenCandidatesBound | backend/accounts/serializers.py:40-43 | if the first n names are all taken, at least n names are taken, so the loop is bounded by the table's size |
| UserSerializer.FreeUsername | backend/accounts/serializers.py:39-43 | the result is free, and it is the name for the least free counter, which is at most the number of names taken |
| UserSerializer.Create | backend/accounts/serializers.py:33-54 | password2 is dropped, and the username is the least free candidate for the base. `create_user` refuses an empty username, and then nothing is saved. Otherwise the record gets that username, the normalised email, the full name and the validated password, and only the new key is added. Unique usernames stay unique |
| UserSerializer.ApplyUpdate | backend/accounts/serializers.py:72 | each followed field present in the data is assigned, the others and the password are kept |
| UserSerializer.Update | backend/accounts/serializers.py:56-72 | without a full name the data is passed on unchanged; with one, the username is regenerated with the record's own key left out of the check, so a user already holding the base keeps it; unique usernames stay unique |
| AccountViews.Serialize | backend/accounts/views.py:29 | the serialized user carries the key, username, email and full name, and no password |
| AccountViews.Register | backend/accounts/views.py:22-31 | invalid data gives 400 with the errors and saves nothing. A generated username that is empty ends the request in 500 and saves nothing. Otherwise the reply is 201 with the serialized new record, which has a free, non-empty username, the normalised email, the full name and a password that checks; every other record is left alone |
| AccountViews.Logout | backend/accounts/views.py:37-70 | only a present refresh cookie is blacklisted; if that fails, 400 "Invalid token" and no cookies; otherwise 200 and both cookies set to "" with max-age 0 |
| AccountViews.LogoutWithoutRefreshCookie | backend/accounts/views.py:42-66 | without a refresh cookie, logout succeeds, blacklists nothing and clears both cookies |
| AccountViews.ResetUrl | backend/accounts/views.py:83 | the reset link is the page with `?token=`, the token, then `?email=` and the address, both unescaped |
| AccountViews.ResetUrlDeterminesTokenAndEmail | backend/accounts/views.py:83 | if the tokens contain no `?`, equal links come from equal tokens and addresses |
| AccountViews.ResetRequest | backend/accounts/views.py:73-125 | invalid data gives no reply; an unknown email gives the generic 200 and sends no mail; a known one gets a 24-hour reset mail and 200 or 500 depending on delivery; mail only ever goes to an existing account |
| AccountViews.ResetReplyRevealsAccount | backend/accounts/views.py:110-125 | when delivery works, a known and an unknown email get different replies |
| AccountViews.ResetConfirm | backend/accounts/views.py:128-147 | invalid data gives 400 with the errors; an unknown email gives 404; a bad token gives 400 "Invalid token"; a good token sets the new password and answers 200 |
| AccountViews.ResetConfirmChangesOnlyThePassword | backend/accounts/views.py:132-139 | the table keeps its keys; only a 200 changes it, and then only the password of the account with that email; both uniqueness constraints are kept |
| AccountViews.ChangePassword | backend/accounts/views.py:180-203 | 200 exactly when all fields are given, the previous password checks and the new ones match; otherwise the first failing check's 400 and the password is unchanged |
| AccountViews.ChangePasswordEffect | backend/accounts/views.py:199-200 | afterwards only the new password checks, and repeating the request succeeds only if the previous password was reused |
| SignupForm.WithField | frontend/online-code-editor/src/Signup.js:17-20 | the named field takes the value, every other field keeps its own, and no other field appears |
| SignupForm.RequestBody | frontend/online-code-editor/src/Signup.js:39-44 | email, full name and password are copied verbatim, and confirmPassword is sent as password2 |
| SignupForm.RequestBodyAfterEdit | frontend/online-code-editor/src/Signup.js:16-44 | an edit of any of the four fields changes exactly the matching field of the request body (confirmPassword its password2), and an edit of any other name leaves the body unchanged |
| SignupForm.Messages | frontend/online-code-editor/src/Signup.js:56 | one level of `flat()`: a string stays one message, a list gives its items |
| SignupForm.Flatten | frontend/online-code-editor/src/Signup.js:56 | every flattened message comes from one of the error object's values |
| SignupForm.FlattenAppend | frontend/online-code-editor/src/Signup.js:56 | flattening two error objects one after the other is flattening each and concatenating |
| SignupForm.ErrorTextAppend | frontend/online-code-editor/src/Signup.js:56 | the message for two parts is each part's message with one space between |
| SignupForm.ErrorText | frontend/online-code-editor/src/Signup.js:56 | the message shown for a refusal: empty when the error object has no messages, the message itself when it has one |
| SignupForm.TwoFieldRefusal | frontend/online-code-editor/src/Signup.js:55-56 | for any keys and messages, a field with one message followed by a field with two gives the three messages in order, joined with single spaces |
| SignupForm.SingleRefusal | frontend/online-code-editor/src/Signup.js:55-56 | for any key, a value that is a single string is shown as that string |
| SignupForm.Signup.constructor | frontend/online-code-editor/src/Signup.js:6-13 | all four fields empty, no error, no success popup |
| SignupForm.Signup.HandleChange | frontend/online-code-editor/src/Signup.js:16-21 | the form takes the edit of one field, and the error and popup are untouched |
| SignupForm.Signup.HandleSubmit | frontend/online-code-editor/src/Signup.js:23-62 | the error is cleared; with mismatched passwords the error is "Passwords do not match" and nothing is sent; otherwise the request body is sent, and an ok reply shows the popup, a refusal shows the flattened errors, and a transport failure shows "Failed to connect to server" |

## Left out

The model follows the code on these points:
- `handleRunCode` has no guard against a second run; only the disabled button prevents one (Editor.js:89). `StartRun` therefore has no precondition on `loading`.
- A language id outside the catalog still becomes the selection; only the script buffer is kept.
- There is no preview-expansion state and no deferred relayout coordinator. The editors use Monaco's `automaticLayout` option.
- The preview state starts as `''` and is set by an effect after mount. `Session.constructor` includes that first effect run, so the model never has a state with a stale preview.

Abstractions:
- `Text.Lower`, `Text.Capitalize`: ASCII-only. Python's `str.lower` and JavaScript's `toUpperCase` also map non-ASCII letters, and `toUpperCase` can change a string's length (for example `ß`).
- `UserSerializer.BaseUsername`: `slugify` is a parameter, not a model of Django's function.
- `UserSerializer.ApplyUpdate`: the framework's generic update is modelled only for `username`, `email` and `full_name`. Other writable fields, including a `password` assigned without hashing, are not followed.
- `Users.UserWithEmail`, `AccountViews.ResetRequest`, `AccountViews.ResetConfirm`: they require that emails are unique, which the table's unique constraint guarantees. The `MultipleObjectsReturned` path is therefore not modelled.
- `AccountViews.ResetRequest`: exceptions from the token generator or from rendering the mail template are not modelled. Such an exception would escape the view, and `sendSucceeds` covers only sending. The reset link is kept as the view formats it, including its second `?` before `email=`.
- `AccountViews.Logout`: the `IsAuthenticated` permission check of the logout view is not modelled. An unauthenticated request is refused before `post` runs: nothing is blacklisted and no cookie is cleared.
- `AccountViews.Logout`: the blacklist's parse-and-blacklist step is one boolean parameter. The cookies' `secure`, `httponly`, `samesite` and `path` settings are not modelled.
- `AccountViews.ChangePassword`: the authenticated user is a parameter. The `IsAuthenticated` permission check is not modelled, and neither is saving the record into the table.
- `AccountViews.Register`: serializer validation (the password validators, the required fields, email uniqueness) arrives as a `Validation` value. The serializer never compares `password` with `password2`, and the model does not either.
- `SignupForm.Flatten`: object keys are taken in insertion order. JavaScript puts integer-like keys first, and that ordering is not modelled.
- `UserSerializer.Create`: the table is read once and the record saved afterwards, as one step. Two concurrent registrations with the same base can pick the same name, and one of them then fails on the table's unique constraint. Concurrency is not modelled.
- `UserSerializer.Create`: the user manager's `normalize_email` also strips surrounding white space when the address contains `@`. This is not modelled, because the serializer's email field already trims white space. The unicode normalisation of the username is not modelled either.
- `AccountViews.Register`: the serializer's uniqueness check compares the address as given, while the record stores it normalised. Two addresses that differ only in the case of their domain therefore pass validation and then fail on the table's unique constraint. That failure is not modelled, and `Register` does not promise that emails stay unique.
- `CodeExecution.ExecuteCode`: the script file is written outside the `try`. A failed write escapes `execute_code` instead of becoming an output string, and that failure is not modelled.
- Usernames are not checked against the 150-character limit of the model field.
- Usernames are compared as exact strings, as the database lookup is.
- A record's key is a natural number; the table's keys are UUIDs.

Not part of this model:
- the HTTP transport (axios and fetch) and JSON decoding, which are outcome values here;
- rendering, Monaco options and the preview iframe;
- the `setTimeout` redirect after sign-up, and routing;
- `Login.js`, `LandingPage.js`, `App.js` and `index.js`;
- the Celery dispatch in `backend/editor/views.py`, and the Celery and URL configuration;
- the subprocess, the file system and the temporary directory. The model records the file to be written and the command to be started, and takes the process outcome as a value.
