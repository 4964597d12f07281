# bndlabs backend: content store, message inbox and admin gate

This project models the two pieces of logic in the bndlabs content-management
backend. The rest of the backend is route wiring.

- **The flat-file store of `server.js`.** The data directory is a map from file
  name to JSON value. It is the field `files` of class `Server.Backend`.
  - `readJSON` seeds a missing file with its fallback.
  - `writeJSON` replaces a whole file, storing `{}` for null or undefined.
  - Each route handler is a method of the class. The eight content documents
    are read and written through these two helpers.
  - The visitor-message inbox lives in `messages.json`. Its handlers append,
    mark read, delete, page and accept contact-form submissions.
  - Each handler's postcondition gives the new directory and the response as
    pure functions of the old directory (modules `DataFiles` and `Inbox`).
    Lemmas state what those functions promise.
- **The admin gate of `auth.js`.** `Auth.Login` and `Auth.AuthMiddleware` are
  functions returning one `AuthOutcome`: a 400, a 401, an issued token, or a
  call to `next`.
  - Token verification is the parameter `verify`.
  - Header parsing is `String.prototype.split` on a single space
    (module `Strings`).

JavaScript semantics are written out where the handlers depend on them:
- truthiness, property access and `==` (module `Js`);
- `parseInt` without a radix, including white space, sign and the `0x` prefix
  (module `JsNumbers`);
- `Array.prototype.slice` with negative indices (`Inbox.Slice`).

The model follows the code, which differs from the intended design in these
ways:
- Listings are in stored order, which is oldest first, not newest first.
- A negative page number is used as given, not normalised to 1. Only 0 and NaN become 1.
- `POST /api/messages` stores the body as sent, so its `id` is whatever the
  client sent, or nothing.
- send-message e-mails first and saves only after both deliveries succeed.
- None of the shown routes is behind the auth middleware, because `server.js`
  never imports `auth.js`.

## Model

| member | source | states |
|---|---|---|
| DataFiles.Seed | server.js:46-51 | the directory after `readJSON`: the file is present afterwards, no other file appears or changes, and a missing file holds the fallback |
| DataFiles.Coalesce | server.js:60 | what `writeJSON` stores: never null; any value other than null or undefined is stored as given |
| Server.Backend.ReadJSON | server.js:44-56 | a missing file is created holding the fallback; the value returned is the file's value; the directory becomes `Seed(old files)` |
| Server.Backend.WriteJSON | server.js:58-65 | the file's whole value becomes `data ?? {}`; no other file changes |
| DataFiles.ReadMissing | server.js:46-51 | reading a missing file returns the fallback, adds exactly that file and leaves every other file's value alone |
| DataFiles.ReadPresent | server.js:47-51 | reading an existing file returns its value and leaves the directory unchanged |
| DataFiles.ReadIdempotent | server.js:44-56 | a second read, with any fallback, returns the first read's value and changes nothing |
| DataFiles.WriteThenRead | server.js:58-60 | after a write, a read returns what was written (`{}` for null or undefined); other files keep their values |
| Server.FileOf | server.js:68-110 | the file behind each content route; it is never `messages.json` |
| Server.FallbackOf | server.js:68-98 | the seed of each GET route: `[]` for projects and blogs; for socials, the three default links X, Instagram and LinkedIn with their placeholder profile URLs; `{}` for the other five |
| Server.ContentFilesDistinct | server.js:68-74 | each content route has its own file, and none of them is `messages.json` |
| Server.Backend.GetContent | server.js:68-100 | GET of a content route returns the document, seeding it with its fallback (`{}`, `[]` or the three default social links); the inbox is untouched |
| Server.Backend.PostContent | server.js:103-110 | POST of a content route replaces that document with the body and answers ok; the inbox is untouched |
| Server.Backend.GetMessages | server.js:76-78 | GET /api/messages seeds `[]` when the file is missing and returns whatever the file then holds, array or not; for an array inbox that is the stored list |
| Server.Backend.PostMessage | server.js:112-117 | the body is appended as the last element and all earlier messages are unchanged; a non-array inbox makes the handler throw and changes nothing |
| Server.Backend.MarkRead | server.js:119-132 | a falsy id gives 400 and no change; no match gives 404 with only the seeding; a match gives ok and marks the first matching message; a well-formed inbox never throws |
| Inbox.StoredList | server.js:113 | the inbox as `readJSON("messages.json", [])` hands it to a handler (also read at lines 123, 139, 151 and 240): a list exactly when the file is missing or holds an array, empty when missing, and otherwise the array stored |
| Js.Truthy | server.js:121 | the `!id` test of mark-read, delete (line 137), send-message (line 196) and login (auth.js lines 23 and 38): a value is falsy exactly when it is undefined, null, false, 0 or "", so every object and array is truthy |
| Js.Prop | server.js:120 | the property reads `const { id } = req.body` (also line 136), `{ name, email, message }` (line 195), `{ password }` (auth.js line 22) and `m.id` (lines 124 and 140): defined exactly when the value is an object holding the key, and then that key's value |
| Js.LooseEq | server.js:124 | `==` and `!=` between a stored id and a requested id (line 140): equal only when both are the same primitive value |
| Js.HasId | server.js:124 | `m.id == id` (and its negation at line 140): a message matches exactly when it is an object whose `id` property is loosely equal to the requested id, which needs the same primitive value |
| Inbox.FirstMatch | server.js:124 | the result is -1 exactly when no message has the id; otherwise it is the first index whose message has the id |
| Inbox.FindIndex | server.js:124 | the loop of `findIndex` returns exactly `FirstMatch` |
| Inbox.MarkAt | server.js:128 | `list[index].read = true`: same length, that message is read, its other properties and every other message unchanged |
| Inbox.MarkFirstMatch | server.js:124-129 | marking sets `read = true` on the first match only; length, order, the other messages and the match's other properties are unchanged; the same message still matches first, so a repeat call changes nothing |
| Server.Backend.DeleteMessage | server.js:135-144 | a falsy id gives 400 and no change; otherwise the inbox becomes `RemoveId(list, id)` and the reply is ok, whether or not the id was present |
| Inbox.RemoveId | server.js:140 | a message survives exactly when it was in the list and does not carry the id; the list never grows |
| Inbox.RemoveIdAppend | server.js:140 | filtering distributes over concatenation, so survivors keep their relative order |
| Inbox.RemoveAbsent | server.js:140-143 | deleting an id no message carries leaves the list unchanged |
| Inbox.RemoveIdempotent | server.js:140 | after a delete no message carries the id, and a second delete changes nothing |
| Server.Backend.Paginated | server.js:147-161 | the reply carries the defaulted page and limit, `total` equal to the inbox length, and `list.slice((page-1)*limit, (page-1)*limit+limit)`; the inbox is only seeded |
| Inbox.ParamOr | server.js:148-149 | `parseInt(q) \|\| default`: NaN gives the default; a non-zero parse is returned as parsed; a result other than the default is the non-zero number parsed |
| JsNumbers.ParseInt | server.js:148-149 | `parseInt` without a radix yields a number only when the text contains a decimal digit |
| JsNumbers.ParseTrimmed | server.js:148-149 | after the white space, a number needs a digit first or a sign followed by a digit; a negative result needs a minus sign |
| JsNumbers.ParseUnsigned | server.js:148-149 | the unsigned part yields a number only when it starts with a decimal digit (the `0` of a `0x` prefix included) |
| JsNumbers.ParseIntArg | server.js:148-149 | `parseInt(undefined)` is NaN, so an absent query parameter is NaN |
| Inbox.Slice | server.js:159 | `Array.prototype.slice`: never longer than the list, only its elements, and exactly `s[start..end]` for in-range indices |
| Inbox.PageOf | server.js:152-159 | a page holds at most `limit` messages, all from the list |
| Inbox.ParamDefaults | server.js:148-149 | a missing or non-numeric page or limit takes its default |
| Inbox.ParamZero | server.js:148-149 | a page or limit of `0` takes its default |
| Inbox.ParamNumeral | server.js:148-149 | a positive decimal page or limit is used as written |
| Inbox.ParamNegative | server.js:148-149 | a negative decimal page or limit is used as written, so it reaches the slice unchanged |
| Inbox.ParamNonZero | server.js:148-149 | after defaulting, page and limit are never 0 |
| Inbox.ClampIndex | server.js:159 | `slice` clamps an index into the list; an in-range index is kept |
| Inbox.PageContents | server.js:152-159 | for page ≥ 1 and limit ≥ 1, the page is the run of `max(0, min(limit, total - start))` stored messages starting at `start = (page-1)*limit`, in stored order |
| Inbox.PageCovers | server.js:152-159 | message `i` is item `i % limit` of page `i / limit + 1`, so every stored message is on some page |
| Inbox.WellFormedReadable | server.js:113 | when the inbox file is missing or holds an array, the handlers read it as a list (empty when missing) |
| Server.Backend.SendMessage | server.js:194-257 | a missing name, email or message gives 400, no mail and no change; templates, admin mail and visitor mail are tried in that order and any failure gives 500 with nothing saved; after both deliveries exactly one unread record with the clock's id and date is appended |
| JsNumbers.TrimStart | server.js:148-149 | `parseInt` skips exactly the leading white-space characters |
| JsNumbers.DigitPrefix | server.js:148-149 | `parseInt` reads the longest run of digits in its radix |
| JsNumbers.DecimalDigits | server.js:148-149 | a decimal numeral is non-empty, all digits, denotes its number, and starts with `0` only for zero |
| JsNumbers.DigitsFollowedBy | server.js:148-149 | the digits read stop at the first non-digit |
| JsNumbers.UnsignedDecimal | server.js:148-149 | the unsigned reader reads a numeral back, whatever non-digit follows, unless a `0` is followed by `x` |
| JsNumbers.Unsigned | server.js:148-149 | text that starts with a digit is read by the unsigned reader alone |
| JsNumbers.ParseIntDecimal | server.js:148-149 | `parseInt(numeral + rest)` returns the numeral's value |
| JsNumbers.Negated | server.js:148-149 | a leading minus negates what the unsigned reader reads |
| JsNumbers.ParseIntNegative | server.js:148-149 | `parseInt("-" + numeral + rest)` returns the negated value, so negative pages reach the slice |
| JsNumbers.ParseIntSkipsSpace | server.js:148-149 | leading white space does not change the result |
| JsNumbers.NoDigitFirst | server.js:148-149 | text whose first character is not white space, a sign or a decimal digit is NaN |
| JsNumbers.ParseIntNaN | server.js:148-149 | an absent query parameter (the text `undefined`), the empty text and `abc` are NaN |
| JsNumbers.ParseIntHex | server.js:148-149 | `0x1A` is read as hexadecimal 26 |
| Inbox.NewRecord | server.js:241-248 | the record send-message stores: unread, carrying the submitted name, email and message and the ISO date, and found by mark-read and delete under the clock's id |
| Server.HasRequiredFields | server.js:196 | the validation passes exactly when the body is an object whose `name`, `email` and `message` properties are all present and truthy |
| Server.PostThenList | server.js:112-117 | a message posted to an empty directory is the whole first page of ten, with total 1 |
| Server.WriteThenReadHome | server.js:103 | a POST of the home document followed by a GET returns the body |
| Auth.Login | auth.js:21-30 | a falsy password gives 400 and no token; a token is issued exactly when the password is the string equal to the admin password; every other password gives 401; issued tokens carry role `admin` for `2h` |
| Auth.AuthMiddleware | auth.js:36-50 | a missing or empty header gives 401; `next` is called exactly when the header parses as `Bearer <token>` and the token verifies; every other path is one 401 |
| Auth.ParseBearer | auth.js:40-43 | `header.split(" ")` must give exactly `Bearer` and one token; a token found means the header is `"Bearer " + token` and the token holds no space |
| Auth.BearerShape | auth.js:40-43 | the header is accepted with token `t` exactly when it is `"Bearer " + t` and `t` holds no space |
| Auth.NotBearer | auth.js:40-41 | a header not starting with `Bearer ` followed by a space-free rest is refused by the parser |
| Auth.WellFormedHeader | auth.js:43-49 | for a well-formed header, the outcome depends only on verifying its own token: `next` if it verifies, 401 otherwise |
| Auth.MalformedHeader | auth.js:40-41 | a present header of any other shape is refused with the format error, whatever the verifier would say |
| Auth.RejectedScheme | auth.js:40-41 | `Basic abc` and `Bearertoken` are refused without verification |
| Auth.RejectedSpacing | auth.js:40-41 | `Bearer  t` and `Bearer a b` split into three pieces and are refused without verification |
| Strings.Split | auth.js:40 | `split(" ")` gives at least one piece, and no piece contains the separator |
| Strings.JoinSplit | auth.js:40 | joining the pieces with the separator gives back the header |
| Strings.SplitNoSep | auth.js:40 | a text without the separator is one piece |
| Strings.SplitAround | auth.js:40 | a separator after a separator-free prefix ends the first piece |
| Strings.SplitJoin | auth.js:40 | splitting the join of separator-free pieces gives back the pieces |

## Left out

- db-client.js is not part of this model. It caches a MongoDB connection and looks up collections.
- File-system errors are not modelled:
  - the `catch` of `readJSON` that returns the fallback without writing it;
  - the `catch` of `writeJSON` that drops the write;
  - JSON that fails to parse in a hand-edited file.
  The store is an in-memory map, and a JSON round trip is the identity.
- Creating the data directory at startup, logging, CORS, Express routing and `app.listen` are not modelled.
- JSON numbers are integers in the model. Fractions are not modelled, and neither is the key order of objects.
- `m.id == id` and `m.id != id` compare values of the same kind only. JavaScript's coercion between numbers, strings and booleans under `==` is not modelled, so `5` and `"5"` do not match here.
- A `null` element in the inbox array makes `m.id` throw in JavaScript. The model treats it as a message without an id. Such an element can only come from editing the file by hand, because `express.json` accepts only objects and arrays.
- Server.Backend.Paginated: when `messages.json` holds a string, JavaScript slices the string and reports its length. The model reports an escaped exception instead. An array inbox, the only kind the handlers write, is modelled exactly.
- Js.Prop: property access is exact only for an object's own keys, which are the only ones the handlers read. `length`, inherited properties and properties of strings and arrays are not modelled and read as undefined.
- Inbox.ParamOr: a query parameter given twice arrives as an array and is not modelled. Numerals above 2^53 are exact here but rounded in JavaScript.
- The inline SVG icon markup of the three default social links is not reproduced. Each default link keeps its platform and URL.
- E-mail is not modelled. Send-message only records whom it tried to mail and whether each step succeeded (`Server.Mailer`, `Server.Recipient`). Not modelled:
  - reading the templates;
  - the `{{name}}`, `{{email}}` and `{{message}}` substitution;
  - subjects, sender addresses and the nodemailer SMTP transport.
- The e-mail block of `server.js` is pasted twice, which redeclares `nodemailer`, `dotenv` and `transporter`. The model describes the handler as if the block appeared once.
- `Date.now()` and `new Date().toISOString()` are the parameters `now` and `date` of send-message.
- Handlers run one at a time. Send-message awaits two deliveries before its read-modify-write of the inbox, so in the running server other requests can interleave with it.
- JWT cryptography is not modelled:
  - Signing is represented by the claims it signs (`role: "admin"`, `expiresIn: "2h"`), not by the token text.
  - Verification, meaning signature and expiry checked against `JWT_SECRET` at the current time, is the parameter `verify` of `Auth.AuthMiddleware`.
  - So a signed token cannot be shown to pass `verify` until it expires.
- Loading `.env` is not modelled. The startup checks that `ADMIN_PASSWORD` and `JWT_SECRET` are set appear only as the precondition of `Auth.Login` that the admin password is not empty.
- Auth.Login: the password comparison is plain string equality, as in the source. It is not a constant-time comparison.
