# Todo API core, modelled in Dafny

This project models the logic of a small Express todo service:

- **the two request-body validators** (`validateCreateTodo` and `validateUpdateTodo`). Each runs a fixed chain of checks and collects an ordered list of Chinese error messages. An empty list calls `next`; any other list answers 400 with that list as `details`.
- **the in-memory todo store** behind `GET`, `POST`, `PUT` and `DELETE /api/todos`. It holds an ordered list of records and a `nextId` counter. POST and PUT run their validator first. PUT and DELETE find their record with `findIndex`.
- **the fixed-window rate limiter** `rateLimit`. It keeps a map from client key to `{count, resetTime}`, with a 900000 ms window and at most 100 requests per window.

Files:

- `wrappers.dfy`: `Option`.
- `js_values.dfy` (module `JsValues`): the JavaScript semantics the validators rely on. A body field is a JSON value (`Absent` for a missing key, `Null`, `Bool`, `Num`, `Str`, `Other` for arrays and objects). The module defines truthiness and `String.prototype.trim`, which strips the WhiteSpace and LineTerminator code units of ECMA-262. Strings are sequences of UTF-16 code units, so `|s|` is JavaScript's `s.length`.
- `validation.dfy` (module `Validation`): both validators as pure functions from body to `seq<ValidationError>`. `Text()` gives each message's exact wording, and `Gate` gives the pass/400 decision. It also defines a declarative description of an acceptable body, and the lemmas that link the two.
- `todo_app.dfy` (module `TodoApp`): the class `TodoStore`, whose fields `todos: seq<Todo>` and `nextId` the route methods update. `FindIndex` is the `findIndex` loop, proved equal to the function `IndexOf`. `NewTodo`, `ApplyUpdate` and `RemoveAt` say what each handler does to a record or to the list. Lemmas show that every mutation keeps the store invariant: ids strictly increase along the list, lie in `[1, nextId)`, and every stored title and description meets the validators' limits. Four short client methods at the end follow request sequences against the contracts. Some come from the test suites: a missing or blank title, an empty PUT body, a string `completed`, a create then list. Others are added: a PUT to an unknown id and a repeated DELETE.
- `security.dfy` (module `Security`): the pure step function `Step`, the class `RateLimiter`, whose method `Handle` updates `requestCounts` as `Step` says, and lemmas about one step and about a run of requests within one window.

Behaviour of the code worth noting:

- The title length limit of 100 applies to the untrimmed title.
- A title that is present but falsy (`null`, `false`, `0`, `""`) gets different messages from the two validators. POST says "标题是必填项" (title required). PUT says "标题必须是字符串" (not a string) or "标题不能为空" (blank).
- `retryAfter` is at least 0; it is 0 when the request arrives exactly at `resetTime`.
- PUT stores fields as sent, without trimming. POST trims.

## Model

| member | source | states |
|---|---|---|
| JsValues.FalsyValues | src/middleware/validation.js:18 | `!title` holds exactly for `undefined`, `null`, `false`, `0` and `""` |
| JsValues.WhiteSpaceTable | src/middleware/validation.js:22 | the code units `trim()` strips are exactly TAB, VT, FF, ZWNBSP, the Zs space separators, LF, CR, LS and PS |
| JsValues.Trim | src/middleware/validation.js:22 | `trim()` returns a string no longer than its input with no white space at either end |
| JsValues.TrimIsMiddle | src/middleware/validation.js:22 | `trim()` returns the slice of the input that starts after its leading white space; everything cut off at either end is white space; the result is empty exactly when the whole string is white space |
| Validation.StringTitleErrors | src/middleware/validation.js:20-26 | the string, blank and length checks on a title push at most one message, and only a title message |
| Validation.CreateTitleErrors | src/middleware/validation.js:18-26 | POST's title check pushes at most one message, and only a title message |
| Validation.UpdateTitleErrors | src/middleware/validation.js:64-72 | PUT's title check pushes at most one message, and only a title message |
| Validation.DescriptionErrors | src/middleware/validation.js:29-35 | the description check pushes at most one message, and only a description message |
| Validation.NothingErrors | src/middleware/validation.js:59-61 | the "nothing to update" check pushes at most that one message |
| Validation.CompletedErrors | src/middleware/validation.js:84-86 | the completed check pushes at most that one message |
| Validation.ValidateCreate | src/middleware/validation.js:12-35 | validateCreateTodo collects at most two messages, one per check; which ones is stated by CreateChain, CreateAcceptsExactly and the message lemmas |
| Validation.ValidateUpdate | src/middleware/validation.js:53-86 | validateUpdateTodo collects at most three messages, since "nothing to update" excludes the field checks; which ones is stated by UpdateChain, UpdateAcceptsExactly and the message lemmas |
| Validation.Details | src/middleware/validation.js:40 | `details` has one entry per violation, in order, each the violation's message text |
| Validation.CreateChain | src/middleware/validation.js:12-35 | POST's list has at most two messages, in chain order (title before description, at most one each), and never the update-only messages |
| Validation.UpdateChain | src/middleware/validation.js:53-86 | PUT's list has at most three messages, in chain order ("nothing to update", title, description, completed), and every message comes from exactly one of those four checks |
| Validation.Gate | src/middleware/validation.js:37-44 | `next` is called exactly when the list is empty; otherwise 400 with error 输入数据验证失败 and `details` holding each message's text in order |
| Validation.CreateAcceptsExactly | src/middleware/validation.js:17-35 | POST passes exactly when the title is a non-blank string of at most 100 units and the description is absent or a string of at most 500 units |
| Validation.UpdateAcceptsExactly | src/middleware/validation.js:58-86 | PUT passes exactly when some field is present, a present title is a non-blank string of at most 100 units, the description is absent or a string of at most 500 units, and a present completed is a boolean |
| Validation.CreateTitleMessages | src/middleware/validation.js:17-26 | a falsy title draws "required", a truthy non-string "not a string", a whitespace-only string "blank", a non-blank string over 100 units "too long", each exactly in its case |
| Validation.DescriptionMessages | src/middleware/validation.js:28-35 | absent description: no message; present non-string, including null: "not a string"; string over 500 units: "too long"; at most one message |
| Validation.NothingToUpdateAlone | src/middleware/validation.js:58-61 | "至少需要提供一个要更新的字段" appears exactly when title, description and completed are all absent, and then it is the only message |
| Validation.CompletedMessage | src/middleware/validation.js:83-86 | "完成状态必须是布尔值" appears exactly when completed is present and not a boolean |
| Validation.UpdateIgnoresAbsentTitle | src/middleware/validation.js:64 | an absent title draws no title message under PUT |
| Validation.UpdateTitleMessages | src/middleware/validation.js:64-72 | a present title draws under PUT exactly the message of the string, blank and length checks |
| Validation.UpdateTitleLikeCreate | src/middleware/validation.js:18-26 | for a truthy title, PUT's title message is the one POST gives |
| Validation.UpdateFalsyTitle | src/middleware/validation.js:64-67 | a present falsy title, which POST calls "required", draws under PUT "blank" when it is the empty string and "not a string" otherwise, and never "required" |
| Validation.TitleLengthBoundary | src/middleware/validation.js:24 | a non-blank title of exactly 100 units is accepted; one of 101 is refused with only "too long", whatever its trim |
| Validation.DescriptionLengthBoundary | src/middleware/validation.js:32 | a description of exactly 500 units draws no message; one of 501 draws "too long" |
| TodoApp.IndexOf | index.js:51 | the position of the first record with the id, or -1 exactly when no record has it; a NaN id (`None`) matches nothing |
| TodoApp.FindIndex | index.js:72 | the linear scan returns exactly `IndexOf` |
| TodoApp.IndexOfUnique | index.js:51 | with ids ordered, as `nextId++` (line 34) keeps them, the `findIndex` lookup (here and at line 72) of a stored record's id finds that record |
| TodoApp.NewTodo | index.js:33-39 | the created record has the given id, the trimmed title, the trimmed description or "" when it is absent, completed false and the given createdAt, and meets the stored-field limits |
| TodoApp.ApplyUpdate | index.js:57-61 | every present field overwrites the stored one untrimmed; id, createdAt and absent fields are unchanged; field limits are kept |
| TodoApp.RemoveAt | index.js:78 | `splice(index, 1)` drops exactly that position and keeps the others in order |
| TodoApp.AppendKeepsIds | index.js:34 | appending a record with id `nextId` and advancing the counter keeps ids strictly increasing and below the counter |
| TodoApp.AppendKeepsInvariants | index.js:30-41 | creation keeps both store invariants and the new id is above every stored id |
| TodoApp.ReplaceKeepsIds | index.js:59-61 | an update, which keeps the id, keeps ids ordered |
| TodoApp.RemoveKeepsIds | index.js:78 | deletion keeps ids ordered |
| TodoApp.RemoveDropsOnlyTarget | index.js:72-78 | after deleting, the id is no longer found and every record with another id is still there |
| TodoApp.TodoStore.constructor | index.js:13-14 | the store starts empty with `nextId` 1 |
| TodoApp.TodoStore.List | index.js:20-22 | GET returns the stored list as it is, with 200, and changes nothing |
| TodoApp.TodoStore.Post | index.js:30-43 | a rejected body gives 400 with the messages and leaves list and counter unchanged; an accepted one appends `NewTodo(old nextId)`, returns it with 201, increments `nextId` by one, and the new id exceeds every earlier one |
| TodoApp.TodoStore.Put | index.js:49-64 | a rejected body gives 400 before any lookup; an unknown id gives 404; otherwise only the found record becomes `ApplyUpdate` of itself and is returned; the counter never changes; the invariant holds |
| TodoApp.TodoStore.Delete | index.js:70-80 | an unknown id gives 404 with nothing changed; otherwise 204, the list is `RemoveAt` of the found position, and the id is no longer found, so a second delete gives 404 |
| Security.CeilDiv | src/middleware/security.js:76 | `Math.ceil(a / b)`: the least integer q with a <= q * b |
| Security.Lookup | src/middleware/security.js:57 | `requestCounts.get(clientKey)`: the stored entry when the key is present, nothing otherwise |
| Security.Step | src/middleware/security.js:57-78 | one request keeps every count at least 1; a new client's first request passes without headers; a refusal only happens to a known client and keeps its resetTime |
| Security.StepCounts | src/middleware/security.js:57-70 | a first request stores `{1, now + 900000}` and passes without headers; after the window ends the entry restarts at count 1 and passes; otherwise the count rises by exactly one and resetTime is kept, refused or not |
| Security.LimitedIffOverMax | src/middleware/security.js:72-78 | a request is refused exactly when the updated count exceeds 100, and `next` is called exactly when it is not refused |
| Security.RetryAfterBounds | src/middleware/security.js:64-78 | a refusal happens only within an unexpired window; retryAfter is the ceiling of the remaining milliseconds over 1000, at least 0; the status is 429 |
| Security.RemainingInRange | src/middleware/security.js:80-83 | on a passed request after the first, the limit header is 100, remaining is 100 minus the count and lies in [0, 99], and reset is the entry's resetTime |
| Security.ReplayFrom | src/middleware/security.js:57-70 | after one or more requests the client has an entry; after none its entry is the starting one |
| Security.LastDecision | src/middleware/security.js:72-78 | the last request of a run is refused only when an earlier request or a starting entry exists |
| Security.OneWindowCounts | src/middleware/security.js:57-70 | within one window, opened either by a client's first request or by the first request after its previous window ended, after n requests the entry is `{n, first + 900000}` |
| Security.HundredthPassesHundredFirstRefused | src/middleware/security.js:57-78 | within any such window the n-th request passes exactly when n <= 100, so the 100th passes and the 101st is refused; a new client's first request passes without headers |
| Security.RateLimiter.constructor | src/middleware/security.js:49 | the limiter starts with no entries |
| Security.RateLimiter.Handle | src/middleware/security.js:51-86 | the requesting client's entry becomes `Step`'s entry and the decision is `Step`'s decision; every other client's entry is unchanged; every stored count stays at least 1 |

## Left out

- `setSecurityHeaders` (src/middleware/security.js:12-43): it only sets constant headers behind the production flag, so there is no logic to prove.
- The Express wiring: CORS, `express.json` body parsing and its size cap, `app.listen`, console output and `/health`. These are framework plumbing. A body is modelled as the values of its named fields, so a body that is not an object is not modelled.
- `rateLimit` is not mounted in index.js. The model treats it as a standalone middleware and does not put it in front of the routes.
- `Date.now()` and `new Date().toISOString()` are not modelled. `now` is an integer parameter and `createdAt` an opaque string. The X-RateLimit-Reset header is the integer `resetTime`, not its ISO rendering.
- `parseInt(req.params.id)` is not modelled. The id arrives already parsed as an `Option<int>`, and `None` stands for NaN.
- JavaScript numbers are modelled as unbounded integers and reals. Precision loss above 2^53 in `nextId` or in `now + windowMs` is not modelled.
- `requestCounts` entries are never evicted, as in the source.
- Concurrency is not modelled. The source assumes one request at a time.
- `tests/app.test.js` expects the 400 error text 'Title is required'. The validator sends 输入数据验证失败, and the model follows the validator.
- The message texts and `createdAt` are Dafny strings (Unicode scalar values), not UTF-16 code units. Only titles and descriptions, whose length matters, are code-unit sequences.
