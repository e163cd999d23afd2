# Authenticated object cache worker — Dafny model

This project models the Cloudflare Worker in `src/index.ts`, an object cache
behind HTTP basic authentication. It has two entry points:

- **`fetch`**, the request handler. It checks the `Authorization: Basic …`
  header against the KV namespace: user `u` with password `p` is the KV entry
  `USER_u` with value `p`. It checks that the R2 bucket is bound. It takes the
  object key from the URL path, without the leading `/`. Then it serves:
  - `GET`: the stored object, or 404;
  - `PUT`: stores the request body, or 400 when there is none;
  - any other method: 405 with `Allow: GET, PUT`.

  A successful `GET` or `PUT` records the current time under the KV entry
  `LAST_USED_<key>`.
- **`scheduled`**, the expiration sweep. It lists the KV entries under
  `LAST_USED_`. An entry whose value is not a number (for `parseInt`), or is
  more than one week (604 800 000 ms) old, is deleted together with the
  object it tracks.

The model treats the KV namespace as a `map<string, string>` and the bucket
as a `map<string, seq<byte>>`. The clock is a parameter `now`. `atob` is a
parameter `string -> Option<string>`, where `None` stands for the exception
it throws on input that is not base64.

- `Gateway.Fetch` is a pure function. It maps a request summary, `now`, the
  two stores, the binding flag and `atob` to an outcome (a response or a
  thrown exception) and the two new stores.
- `Expiration.Env` is a class that holds the two stores as fields. Its method
  `Scheduled` loops over the listing and calls `KvGet`, `BucketDelete` and
  `KvDelete` as the source does. It is proved against the specification
  function `Expiration.Sweep`. That function removes the listed, present and
  expired entries, and the objects they name, computed against the KV
  contents before the sweep.

The JavaScript builtins the handlers rely on are modelled with their own
semantics:
- `startsWith`, `slice(1)`;
- `split` with a one-character separator, with its inverse `Join`;
- `indexOf`, and `replace` with a string pattern, which replaces only the
  first occurrence;
- `parseInt(s, 10)`: skip ECMAScript white space, read an optional sign, read
  the longest digit run, `NaN` if that run is empty;
- the template literal `${n}` for integers.

Two details of the source show up as lemmas:
- The credentials are destructured as `[username, password] = decoded.split(":")`.
  Anything after a second `:` is therefore ignored (`Gateway.CredentialsOf`),
  and a stored password that contains `:` can never be matched
  (`Gateway.FetchColonPassword`).
- An entry exactly one week old survives the sweep, because the comparison
  is a strict `>` (`Expiration.TimestampExpiry`).

The model follows the code as written:
- There is no size budget and no least-recently-used eviction. The expiry
  period is the fixed constant of one week, not a setting.
- The sweep deletes the object and then the KV entry, with no condition
  between the two.
- Only the first page of the KV listing is read.
- The timestamp is overwritten with `now` on every access, with no check that
  it moves forward.

Files:
- `wrappers.dfy`: `Option`.
- `js_strings.dfy`, `js_numbers.dfy`: the string and number builtins.
- `stores.dfy`: store types and key prefixes.
- `gateway.dfy`: `fetch`.
- `expiration.dfy`: `scheduled`.
- `lifecycle.dfy`: a lemma connecting the two handlers.

## Model

| member | source | states |
|---|---|---|
| JsStrings.Split | src/index.ts:7-9 | `split` with one separator: at least one field, at least two when the separator occurs, and no field contains the separator |
| JsStrings.JoinSplit | src/index.ts:9 | joining the fields of a string with the separator gives the string back, so `split` loses nothing |
| JsStrings.SplitJoin | src/index.ts:9 | splitting a join of separator-free fields gives exactly those fields back |
| JsStrings.DropFirst | src/index.ts:19 | `slice(1)`: the first character followed by the result is the string; the empty string stays empty |
| JsStrings.IndexOf | src/index.ts:84 | `indexOf`: the pattern occurs at the returned index and at no earlier index; when it returns none, the pattern occurs nowhere |
| JsStrings.ReplacePrefix | src/index.ts:84 | replacing a string's prefix by the empty string leaves the rest of the string |
| JsNumbers.ParseInt | src/index.ts:82-83 | `parseInt(s, 10)` is NaN exactly when no digit follows the leading white space and optional sign |
| JsNumbers.NatToString | src/index.ts:33 | the decimal text of a number is non-empty, all digits, and has no leading zero |
| JsNumbers.IntToString | src/index.ts:53 | `${n}` of an integer: a leading `-` exactly when `n` is negative, and decimal digits otherwise |
| JsNumbers.ParseIntToString | src/index.ts:82 | reading back the decimal text `${n}` of any integer with `parseInt` gives `n` |
| JsNumbers.ParseIntIgnoresSuffix | src/index.ts:82 | text after the digits that does not start with a digit does not change the value `parseInt` reads |
| Gateway.Fetch | src/index.ts:2-68 | an exception writes nothing; every status is one of 200, 400, 401, 404, 405, 500; stores change only on a 200; the bucket changes only by a PUT of the body under the key; KV changes only at `LAST_USED_<key>`, which is set to `now` |
| Gateway.EncodedCredentialsOf | src/index.ts:7 | `authHeader.split(" ")[1]` is the text after `Basic ` up to the next space |
| Gateway.CredentialsOf | src/index.ts:9 | the username is the text before the first `:`, the password the text up to the second `:`; anything after that is ignored |
| Gateway.CredentialsWithoutColon | src/index.ts:9 | decoded credentials without `:` give an undefined password |
| Gateway.FetchWithoutBasicScheme | src/index.ts:3-6 | no `Authorization` header, or one not starting with `Basic `, gives 401 and leaves both stores unchanged |
| Gateway.FetchUndecodable | src/index.ts:8 | credentials `atob` rejects make `fetch` throw, with both stores unchanged |
| Gateway.FetchAuthenticates | src/index.ts:7-13 | credentials decoding to `user:pass…` get past the check exactly when KV holds `USER_user` with value `pass`; otherwise 401 with nothing written |
| Gateway.FetchWithoutPassword | src/index.ts:9-13 | credentials with no `:` always give 401 with nothing written |
| Gateway.FetchColonPassword | src/index.ts:9-13 | when the password KV holds for the decoded username contains `:`, the request gets 401 and nothing is written |
| Gateway.FetchUnbound | src/index.ts:15-17 | an authenticated request (header `Basic <token>` plus any further words, credentials `user:pass` plus any further `:` fields, KV holding `pass` for `user`) with the bucket unbound gives 500 with nothing written |
| Gateway.FetchWithoutKey | src/index.ts:19-23 | an authenticated request whose path has nothing after the leading `/` gives 400 before either store is touched |
| Gateway.FetchGet | src/index.ts:26-41 | GET of an absent object gives 404 and writes no timestamp; GET of a present object returns it, sets `LAST_USED_<key>` to `now` and leaves the bucket unchanged |
| Gateway.FetchPut | src/index.ts:44-57 | PUT with no body gives 400 and changes nothing; otherwise 200, the bucket maps the key to the body and `LAST_USED_<key>` is `now` |
| Gateway.FetchOtherMethod | src/index.ts:60-66 | any method other than GET or PUT gives 405 with `Allow: GET, PUT` and changes nothing |
| Gateway.FetchKeepsCredentials | src/index.ts:10-57 | no request deletes a KV entry or an object, and no request changes a `USER_` entry |
| Expiration.TimestampExpiry | src/index.ts:74-83 | a timestamp written as `${t}` is expired exactly when `now - t` exceeds one week, so an entry exactly one week old survives |
| Expiration.SweepTimestamps | src/index.ts:76-86 | an entry is removed exactly when it is listed, present and expired (unparsable or over a week old); every other entry keeps its value |
| Expiration.BlobKeyOfTimestamp | src/index.ts:84 | `name.replace("LAST_USED_", "")` of the entry for object `key` is `key` |
| Expiration.SweepObjects | src/index.ts:76-86 | with a `LAST_USED_` listing, an object is deleted exactly when its own timestamp entry is listed, present and expired; objects with no entry or a fresh one keep their contents |
| Expiration.SweepKeepsCredentials | src/index.ts:71 | with a `LAST_USED_` listing, `USER_` entries are never touched |
| Expiration.SweepIdempotent | src/index.ts:76-86 | a second sweep with the same listing and time deletes nothing more |
| Expiration.Env.KvGet | src/index.ts:77 | `KV.get` returns the stored value, or null exactly when the entry is absent |
| Expiration.Env.KvDelete | src/index.ts:85 | `KV.delete` removes the entry (an absent one is not an error) and leaves the bucket alone |
| Expiration.Env.BucketDelete | src/index.ts:84 | `BUCKET.delete` removes the object (an absent one is not an error) and leaves KV alone |
| Expiration.Env.Scheduled | src/index.ts:70-88 | after the loop over the listing, the two stores are exactly what `Sweep` leaves: the listed, present, expired entries and the objects they name are gone, and nothing else changed |
| Lifecycle.AccessThenSweep | src/index.ts:26-86 | after a GET or PUT answered 200 at time `t`, a sweep at `now` that lists the object's entry keeps the object, with the contents the request left, exactly when `now - t` is at most one week |

## Left out

- HTTP objects are reduced to what the handler reads and answers. A request is its method, its `Authorization` value, its URL pathname and an optional body. A response is a status, a text or object body, and an optional `Allow` value. Header metadata (`writeHttpMetadata`, `httpEtag`, the stored `httpMetadata`) and streaming are not modelled.
- `atob` is a parameter, not an implementation of base64. What the runtime answers when `fetch` throws is not modelled.
- Header-name case folding, the joining of repeated headers, method-name normalisation and URL parsing belong to the runtime. The model takes their results as given.
- `async`/`await`, failures of single store calls, KV eventual consistency and R2 durability are not modelled. Every store call succeeds at once. A stale listing is covered, because any listing is accepted and a listed entry that is gone reads as null.
- Listing pagination: the listing is a given sequence. The source reads only the first page and follows no cursor.
- `Date.now()` and the cron trigger: `now` is a parameter.
- Concurrency between requests and sweeps: the source does not coordinate them.
- JsNumbers.ParseInt: uses exact integers, where JavaScript numbers are doubles. Digit runs beyond 2^53 are not rounded, and `now - lastUsed` is exact.
