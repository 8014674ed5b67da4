# Blog-app: document store, request handlers and registration rules in Dafny

This project models the core of a small blogging application in Dafny:

- **The Express server (`server.js`).** All persisted state is one document with three collections: `users`, `posts` and `tokens`. Every mutating route is guarded by a bearer-token middleware. The handlers create, update and delete users and posts, and login issues tokens.
- **The registration page (`src/pages/Regist.jsx`).** It holds the form's validation schema, the numeric id computed for a new user, and the record it submits.

Files:

- `JsValues.dfy`: JSON field values (`Str` or `Num`) and the JavaScript coercions the code relies on. These are `String(n)`, `Number(s)`, `parseInt(x) || 0` and loose equality `==`.
- `Server.dfy`: the auth gate (`Split`, `BearerToken`, `Authorize`) and the collection operations (`MaxParsedId`, `NewRecord`, `ShallowMerge`, `FindFirst`, `RemoveMatching`, `PublicUser`). It also holds the class `Store`, whose fields `users`, `posts` and `tokens` are changed in place by one method per handler.
- `Registration.dfy`: the username and password patterns, written as scanners and proved equal to plain-language rules. It also holds the field checks of the schema, `NewId`, and `Register`, which combines validation, the e-mail-taken check and the submitted record.

Modelling choices:

- A record is a `map<string, JsVal>`. A missing key is JavaScript's `undefined`, so the shallow merge `{...old, ...body}` is Dafny's right-biased map union.
- Loose equality is modelled on `Num(int) | Str(string)`. Two strings compare as strings and two numbers as numbers. A string compared with a number is first converted with a simplified `Number`: the empty string is 0, an optional `-` followed by decimal digits is that integer, and anything else is `NaN`.
- `parseInt(x) || 0` reads an optional sign and the leading decimal digits; a value with none, or `undefined`, gives 0.
- The route parameter `:id` is always a string. An absent field (`p.userId` on a post without one) loosely equals nothing, so such a post survives a cascade.
- Login compares `email` and `password` with `===`. This is equality of the optional field values, so a body without `email` matches a user without `email`.
- The random token of login is a parameter of `Store.Login`.

Behaviour of the code a reader may not expect:

- A request body that carries its own `id` overrides the assigned one. Ids are therefore unique only for bodies without an `id`, and only while ids stay below 2^53 (`NextIdIsFresh`, `CreatedIsFoundById`).
- Deleting removes every record whose id loosely equals the parameter, not just one.
- Posts made by the client carry `author` (a name) and no `userId`, so the user cascade never removes them (`CascadeKeepsUnlinkedPosts`).

## Model

| member | source | states |
|---|---|---|
| JsValues.ToNumber | server.js:75 | a string `Number` reads as an integer (other than the empty string) is read to the same integer by `parseInt` |
| JsValues.ParseIntPrefix | server.js:63 | `parseInt` of a non-empty string of decimal digits is the value of those digits |
| JsValues.ParseIntOrZero | server.js:63 | `parseInt(x)`, or 0 for NaN, is the number of a numeric string and 0 for an absent field |
| JsValues.LooseEq | server.js:75 | loose `==` holds between equal values, and between two strings or two numbers exactly when they are equal |
| JsValues.IntToString | server.js:65 | `String(n)` of an integer reads back as that integer under `Number` |
| JsValues.ParseIntOrZeroOfString | server.js:63 | `parseInt(String(n)), or 0 for NaN, == n`, so an assigned id reads back as its number |
| JsValues.LooseEqIntString | server.js:75 | a value is loosely equal to the decimal string of `n` exactly when it is that string or the number `n` |
| JsValues.LooseEqNotTransitive | server.js:75 | `"1" == 1` and `1 == "01"` but not `"1" == "01"`: matching by `==` is not an equivalence |
| Server.Split | server.js:39 | `split(" ")` yields at least one piece, none containing the separator, and at least two when the separator occurs |
| Server.JoinSplit | server.js:39 | joining the pieces of `split` with the separator gives back the header |
| Server.BearerToken | server.js:39 | the token taken from a `"Bearer "` header contains no space |
| Server.BearerTokenOf | server.js:35-39 | the token of `"Bearer " + t` is `t` up to its first space, and `t` itself when `t` has no space |
| Server.Authorize | server.js:33-47 | the gate reports "no token" exactly when the header is absent or lacks the `"Bearer "` prefix, and passes exactly when it has the prefix and the word after it is a stored token |
| Server.AuthorizeBearer | server.js:33-47 | a `"Bearer " + t` header is never Unauthorized, and passes exactly when `t` up to its first space is a stored token |
| Server.AuthorizeNeedsPrefix | server.js:34-37 | a header without the `"Bearer "` prefix is Unauthorized whatever the tokens |
| Server.AuthorizeMonotone | server.js:42-46 | after a token is appended, every header that passed still passes |
| Server.IssuedTokenAuthorizes | server.js:42 | once a token without a space is stored, `"Bearer " + token` passes the gate |
| Server.MaxParsedId | server.js:61-64 | the maximum over `parseInt(id), or 0 for NaN,`: at least every record's parsed id and equal to one of them |
| Server.NextIdNumber | server.js:61-65 | `maxId + 1` exceeds every record's parsed id; it is 1 for an empty collection and otherwise one more than some record's parsed id |
| Server.NextId | server.js:63-65 | the assigned string id parses back to `maxId + 1` |
| Server.NewRecord | server.js:65 | the created record holds every body field, and the assigned id only when the body has no `id` |
| Server.ShallowMerge | server.js:78 | body fields win, fields absent from the body are kept, keys are the union |
| Server.FindFirst | server.js:75 | `findIndex`: -1 exactly when nothing matches, otherwise a matching index with no match before it |
| Server.FindIndex | server.js:75 | `findIndex` by loose equality with the route id: -1 exactly when no record matches, otherwise the first matching index |
| Server.FindCredentials | server.js:172 | `find` with `===` on `email` and `password`: -1 exactly when no user has both, otherwise the first such user |
| Server.RemoveMatching | server.js:95-98 | `filter`: no remaining record matches, non-matching records keep their multiplicity, matching ones are gone, and a collection without matches is returned unchanged |
| Server.PublicUser | server.js:189 | the login response user has only those of `id`, `name`, `email` the user has, with the user's values |
| Server.FirstIds | server.js:61-66 | an empty collection gets id `"1"`, and the next record `"2"` |
| Server.NextIdIsFresh | server.js:61-65 | no existing record's id is loosely equal to the assigned id |
| Server.CreatedIsFoundById | server.js:61-75 | a record created without its own id is the one a lookup by its assigned id finds |
| Server.RemovedIsNotFound | server.js:88-98 | after the delete filter, a lookup by the same id finds nothing |
| Server.CascadeKeepsUnlinkedPosts | server.js:95 | the user cascade keeps every post without a `userId` field |
| Server.LoginFindsStoredCredentials | server.js:172 | when some user has the given e-mail and password, login finds the first such user |
| Server.RemoveMatchingIdempotent | server.js:155 | filtering out an id twice is the same as once |
| Server.ShallowMergeIdempotent | server.js:78 | applying the same update body twice is the same as once |
| Server.Store.constructor | server.js:19-23 | the document starts with three empty collections |
| Server.Store.CreateUser | server.js:58-69 | gate failure leaves the document unchanged; otherwise exactly one new record is appended to `users`, with posts and tokens unchanged |
| Server.Store.UpdateUser | server.js:72-81 | gate failure or no matching id leaves the document unchanged; otherwise only the first match is replaced by its merge with the body |
| Server.Store.DeleteUser | server.js:84-107 | no match leaves the document unchanged; otherwise all matching users and all posts with a matching `userId` are removed, tokens are kept, and the first match is returned |
| Server.Store.CreatePost | server.js:118-128 | gate failure leaves the document unchanged; otherwise exactly one new record is appended to `posts`, with users and tokens unchanged |
| Server.Store.UpdatePost | server.js:131-140 | gate failure or no matching id leaves the document unchanged; otherwise only the first match is replaced by its merge with the body |
| Server.Store.DeletePost | server.js:143-164 | no match leaves the document unchanged; otherwise all matching posts are removed with no cascade, and the first match is returned |
| Server.Store.Login | server.js:167-191 | no credential match gives InvalidCredentials and changes nothing; otherwise exactly one token is appended and the public view of the first match is returned |
| Registration.ScanUsernameCorrect | src/pages/Regist.jsx:14 | the scanner for the username pattern accepts exactly the strings of letters and single interior spaces |
| Registration.MatchesUsernamePattern | src/pages/Regist.jsx:14 | the username pattern accepts exactly one or more letter words separated by single spaces |
| Registration.ScanPasswordCorrect | src/pages/Regist.jsx:19 | the scanner for the password pattern counts length, charset and the three required kinds exactly |
| Registration.MatchesPasswordPattern | src/pages/Regist.jsx:19 | the password pattern accepts exactly six or more allowed characters with an upper-case letter, a digit and a special character |
| Registration.LowercaseNotRequired | src/pages/Regist.jsx:19 | a password with no lower-case letter is accepted |
| Registration.CheckUsername | src/pages/Regist.jsx:12-14 | the username passes exactly when it is letter words separated by single spaces, and an empty one is reported as required |
| Registration.CheckEmail | src/pages/Regist.jsx:15 | the e-mail passes exactly when it is non-empty and well formed, and an empty one is reported as required |
| Registration.CheckPassword | src/pages/Regist.jsx:16-21 | the password passes exactly when the password rule holds, and an empty one is reported as required |
| Registration.CheckConfirm | src/pages/Regist.jsx:22-24 | the confirmation passes exactly when it equals a non-empty password, and an empty one is reported as required |
| Registration.Validate | src/pages/Regist.jsx:11-25 | the form passes exactly when all four field rules hold |
| Registration.EmptyFieldsRequired | src/pages/Regist.jsx:12-24 | an empty username, e-mail, password or confirmation is reported as required |
| Registration.MaxOf | src/pages/Regist.jsx:61 | `Math.max` of a non-empty list is an element and at least every element |
| Registration.NewId | src/pages/Regist.jsx:60-61 | `newId` is 1 for no users, otherwise one more than an existing id and greater than all of them |
| Registration.NewUser | src/pages/Regist.jsx:64-70 | the submitted record has exactly the keys `id`, `name`, `email`, `password`, `image`, holding the id and the form fields, with the picture defaulting to `""` |
| Registration.Register | src/pages/Regist.jsx:43-70 | an invalid form is rejected; a taken e-mail stops the submission; otherwise the record maps the form fields, defaults the image to `""` and takes `newId` |

## Left out

- Reading and writing the document file, JSON parsing and pretty-printing, and a malformed file. The store is in memory and starts empty, so the `save(load())` round trip is not modelled.
- A stored document that lacks `tokens` (`!data.tokens`): the model always has the three collections.
- The `GET /api/users` and `GET /api/posts` handlers: they return a collection unchanged.
- Express routing, HTTP status codes and the response message strings. Only the response variant and its records are modelled.
- `Math.random().toString(36)`: the token is an arbitrary parameter, and nothing is claimed about its freshness.
- The read-modify-write race between concurrent requests: each handler is one atomic method.
- JSON values other than strings and integers (booleans, `null`, fractions, nested objects).
- JavaScript numbers are doubles; the model uses unbounded integers. Ids are assumed to stay below 2^53, where `+ 1`, `parseInt` and `String` are exact. Above that, `maxId + 1` can round back to an existing id, and `String(n)` uses exponent form from 1e21 on.
- Server.NextIdIsFresh, Server.CreatedIsFoundById: these hold only for ids below 2^53, because of the double arithmetic above.
- `Number` and `parseInt` details beyond the simplified forms above: whitespace, `+` in `Number`, fractions, exponents, hex, `Infinity` and `-0`.
- The e-mail format check of the validation library: its outcome is a parameter.
- The network lookups of the registration page. The users with the entered e-mail and the numeric ids of all users are parameters, and all ids are taken to be numbers.
- The registration page posts to `/users`, which `server.js` does not define. The model does not connect registration to the server's handlers.
- The order in which the validation library reports several errors for one field: one error per field is modelled, with "required" first.
- Server.RemoveMatching: the contract states multiplicities, not that the filter keeps the original order (its definition does).
- UI components, animation, `localStorage`, image upload and the client's optimistic list updates.
