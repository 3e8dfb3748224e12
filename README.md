# Payer Tiger: paywall catalog and unlock-transaction builder in Dafny

Payer Tiger lets a creator register premium content with a USDC price. A payer
then unlocks that content by signing a transaction that calls
`payAndLogAccess` on a payment-router contract on Avalanche Fuji. This project
models the two server routes that do the work:

- **`/api/content`** (`content_route.dfy`, module `ContentRoute`). GET lists
  the catalog. POST checks that `contentId`, `title`, `unlockableUrl` and
  `priceUSDC` are present and non-empty, rejects an id that is already in the
  catalog by a linear `find`, appends one record stamped with `createdAt`, and
  rewrites the whole file.
- **`/api/app`** (`app_route.dfy`, module `AppRoute`). GET returns the Sherry
  action metadata. POST is a chain of early returns:
  1. both query parameters must be present, else 400;
  2. an empty catalog is seeded with the `abc123` entry and persisted;
  3. the `contentId` is looked up by exact match, else 404;
  4. the access-records file is created if it is absent;
  5. the creator's payee is read from the router contract, else 404;
  6. the `contentId` is padded with `'0'` to 66 characters, the price is
     converted to an integer, and the call and the legacy transaction are
     encoded and serialised, else 500.

Two modules are shared by both routes:

- `catalog.dfy` (module `Catalog`) holds the content record, the `find`
  lookup, the distinct-id invariant and the list of side effects.
- `json_file.dfy` (module `JsonStore`) holds a data file. `ensureFileExists`
  and `readJsonFile` are written out twice in the source, once per route, and
  both copies are modelled here once.

## How the model is built

- **Files are state.** A file is `Missing`, `Unparsable`, or `Stored(v)`,
  where `v` is what `JSON.parse` returns. Each file is a `JsonFile` object
  whose methods change that state in place.
- **Each handler has two forms.** A pure function gives the handler's whole
  outcome: `ContentRoute.CreateContent` and `AppRoute.BuildUnlock`. The outcome
  is the response, every file afterwards, and the effects in order. Its `ensures`
  clauses state what the route promises. A method (`Post`, `Get`) then runs
  the source's steps against the `JsonFile` objects. It is proved to produce
  exactly that outcome.
- **Effects are recorded.** Reading or writing the catalog, creating the
  access-records file and querying the chain are logged in a sequence of
  `Effect`s. This makes statements like these provable: a 400 touches nothing;
  a missing `contentId` never reaches the chain.
- **Foreign calls are parameters.** The payee lookup, `BigInt`,
  `encodeFunctionData` and `serializeTransaction` are fields of a `Chain`
  value. Each is a total function that returns `None` where the real call
  throws or reverts. The current time is a parameter of the content POST.
- **Library constants.** `avalancheFuji.id` (43113) and `avalancheFuji.name`
  ("Avalanche Fuji") come from viem's chain table, not from the repository.

### Where the model follows the code rather than the documented intent

- **The content id is padded, not hex-encoded.** It is documented as a 32-byte
  hex value, but the code pads the raw string with `'0'` to 66 characters.
  `AppRoute.PaddedIdIsBytes32Iff` proves when the result is a well-formed
  `0x`-prefixed bytes32 literal: only when the id is already `0x` followed by
  at most 64 hex digits. So the seed id `abc123`, and the `content_<time>` ids
  the dashboard generates, never give one.
- **Long ids are not rejected.** An id of more than 66 characters comes back
  unchanged from `padEnd`. What happens to it is then up to the encoder
  oracle.
- **The payee address is not used.** It is fetched only as an existence check
  and does not appear in the transaction.
- **A corrupt catalog file is overwritten.** The read falls back to `[]`, so a
  later write replaces the corrupt content. Both POSTs do this: the content
  POST writes `[record]`, and the unlock POST writes the seed entry.

## Model

| member | source | states |
|---|---|---|
| `JsonStore.JsonFile.EnsureFileExists` | app/src/app/api/content/route.ts:8-14 | an absent file is created holding the default; a present file, even an unparsable one, is left as it is |
| `JsonStore.JsonFile.ReadJsonFile` | app/src/app/api/content/route.ts:16-24 | returns the parsed content when it parses, the default when the file was missing (which is now created) or unparsable (which is left alone) |
| `JsonStore.JsonFile.WriteFile` | app/src/app/api/content/route.ts:79-83 | the file afterwards holds exactly the written catalog |
| `JsonStore.Ensured` | app/src/app/api/content/route.ts:8-14 | after `ensureFileExists` the file exists; a missing file now holds the default; an existing one, parsable or not, is as it was |
| `JsonStore.ReadValue` | app/src/app/api/content/route.ts:16-24 | `readJsonFile` returns the parsed value when the file parses, and the default when it is missing or unparsable |
| `JsonStore.ReadIsStable` | app/src/app/api/content/route.ts:16-24 | creating a missing file does not change what a read returns; a second read changes nothing; after a read the file exists |
| `Catalog.Find` | app/src/app/api/content/route.ts:57-59 | `find` returns None exactly when no record has the id; otherwise it returns a record of the catalog with exactly that id |
| `Catalog.FindFirst` | app/src/app/api/app/route.ts:150-152 | the lookup returns the first record whose id matches, not just any matching record |
| `Catalog.FindAppend` | app/src/app/api/content/route.ts:57-76 | appending a record changes the lookup only for its own id, and only if that id was absent before |
| `Catalog.FindDistinct` | app/src/app/api/content/route.ts:57-65 | when ids are distinct, looking up any record's id returns that record |
| `Catalog.AppendKeepsDistinct` | app/src/app/api/content/route.ts:57-76 | appending a record whose id is absent keeps the ids pairwise distinct |
| `ContentRoute.HasRequiredFields` | app/src/app/api/content/route.ts:46 | the body fails the field check exactly when one of the four fields is absent or empty |
| `ContentRoute.CreateContent` | app/src/app/api/content/route.ts:41-96 | an unreadable body gives 500 and a missing or empty field gives 400, both before any file access; a duplicate id gives 409 with the file unchanged; every rejection leaves the file unchanged; otherwise the response is "Content created successfully" with a record of the four submitted fields plus `createdAt`, the file holds the old catalog plus that one record, and the effects are a read then a write |
| `ContentRoute.CreatePreservesDistinct` | app/src/app/api/content/route.ts:57-83 | if the catalog's ids are distinct before a POST, they are distinct after it, whatever the outcome |
| `ContentRoute.CreateThenFind` | app/src/app/api/content/route.ts:57-88 | after a successful POST the new id finds exactly the returned record, and every other id finds what it found before |
| `ContentRoute.Get` | app/src/app/api/content/route.ts:27-38 | lists the catalog as read, unmodified: `[]` for a missing file (now created as `[]`) or an unparsable one |
| `ContentRoute.Post` | app/src/app/api/content/route.ts:41-96 | the route's steps produce exactly the response, file state and effects `CreateContent` gives |
| `AppRoute.OrDefault` | app/src/app/api/app/route.ts:54-55 | a present, non-empty header is used as it is; an absent or empty one gives the fallback; so the result is never empty when the fallback is not |
| `AppRoute.GetMetadata` | app/src/app/api/app/route.ts:52-100 | exactly one dynamic action on path `/api/app` for chain `fuji`, with exactly two parameters, `creatorHandle` then `contentId`, both `text` and required; the base URL is `proto://host`, falling back to `http` and `localhost:3000` |
| `AppRoute.MetadataParamsMatchQuery` | app/src/app/api/app/route.ts:71-119 | a query passes POST's parameter check exactly when it gives a non-empty value to every parameter that GET advertises |
| `AppRoute.QueryGet` | app/src/app/api/app/route.ts:115-117 | `searchParams.get` gives None exactly when no pair has the name; otherwise the value of the first pair with that name: no earlier pair has the name |
| `AppRoute.HasParams` | app/src/app/api/app/route.ts:119 | the query fails the parameter check exactly when `creatorHandle` or `contentId` is absent or empty |
| `AppRoute.PadEnd` | app/src/app/api/app/route.ts:201 | the result has length max(length of s, target); `s` is a prefix of it; every appended character is the fill; a string already at the target length or longer is returned unchanged |
| `AppRoute.ContentIdBytes32` | app/src/app/api/app/route.ts:201 | the on-chain id has length max(length of id, 66), starts with the raw id, and every added character is `'0'` |
| `AppRoute.PaddedIdIsBytes32Iff` | app/src/app/api/app/route.ts:201 | the padded id is a well-formed `0x` bytes32 hex literal if and only if the id is `0x` followed by at most 64 hex digits |
| `AppRoute.Seed` | app/src/app/api/app/route.ts:134-149 | the catalog after seeding is never empty; a non-empty catalog is kept as it is; an empty one becomes a catalog in which `abc123` finds the seed entry |
| `AppRoute.SeededFile` | app/src/app/api/app/route.ts:134-149 | the catalog file after seeding holds a value, and that value is the seeded catalog; a file with a non-empty catalog is not changed |
| `AppRoute.SeedEffects` | app/src/app/api/app/route.ts:134-149 | the seeding step reads the catalog first, then writes it if and only if it was empty, and does nothing else; it neither creates the access-records file nor queries the chain |
| `AppRoute.SerializedPayment` | app/src/app/api/app/route.ts:200-221 | no serialised payment comes out when the price does not convert or the call does not encode; when both succeed, the result is exactly what serialising the legacy transaction to the router on chain 43113, carrying the encoded call, gives |
| `AppRoute.PaymentResponse` | app/src/app/api/app/route.ts:200-248 | the response is an execution exactly when a serialised payment exists, and it then carries that payment and the chain name "Avalanche Fuji"; otherwise it is 500 "Internal Server Error" |
| `AppRoute.SerializedPaymentShape` | app/src/app/api/app/route.ts:200-219 | a serialised payment exists only if the price converted. It serialises the legacy transaction to the router on chain 43113, and that transaction carries the encoded call `payAndLogAccess(padded id, handle, USDC address, converted price)`, whose id starts with the raw id and has length max(length of id, 66) |
| `AppRoute.AssembleTransaction` | app/src/app/api/app/route.ts:200-225 | the padding, price conversion, encoding, assembly and serialisation give the serialised transaction on "Avalanche Fuji", or 500 when any step throws |
| `AppRoute.LoadCatalog` | app/src/app/api/app/route.ts:134-149 | the catalog is read; if it is empty it becomes exactly the seed entry and is persisted (a read then a write); if not, it is returned and left unchanged |
| `AppRoute.BuildUnlock` | app/src/app/api/app/route.ts:113-251 | a missing or empty parameter gives 400 with no file access and no chain call. Otherwise the catalog is read first and seeded exactly when it is empty. An unknown id gives 404 "Content not found", leaves the access-records file alone, and its effects are exactly those of the seeding step. A chain query happens only after a successful lookup, and on that path the effects are exactly the seeding step's, then ensuring the access-records file, then the chain query. An unknown payee gives 404 "Creator handle not found on-chain". After that the response is the assembled payment or 500. A transaction is returned only when every step succeeded |
| `AppRoute.Post` | app/src/app/api/app/route.ts:113-251 | the route's steps produce exactly the response, the state of both files and the effects `BuildUnlock` gives |
| `AppRoute.UnlockPreservesDistinct` | app/src/app/api/app/route.ts:134-149 | seeding keeps the catalog's ids distinct |
| `AppRoute.UnlockSeededExample` | app/src/app/api/app/route.ts:133-225 | on a fresh data directory, unlocking `abc123` for `creator1` writes the seed catalog, creates the access-records file as `[]`, queries the chain once, and encodes `payAndLogAccess("abc123" followed by sixty '0's, "creator1", USDC address, 1000000)` into a Fuji transaction to the router, provided the encoder accepts this non-hex 66-character id |

## Left out

- File-system failures are not modelled: `fs.access`, `readFile` or `writeFile` failing on permissions or a full disk. The GET 500 "Failed to fetch content" comes only from these, so it is left out too.
- A catalog file that parses as JSON but is not an array of records is not modelled. The source behaves differently depending on the value:
  - An array of non-records, such as `[1,2]` or objects without `contentId`, does not throw. `item.contentId` is then undefined, so `find` matches nothing (app/src/app/api/content/route.ts:57-58; app/src/app/api/app/route.ts:150-151). The content POST appends the new record to such an array and writes it back. The unlock POST answers 404 "Content not found".
  - The content GET (app/src/app/api/content/route.ts:29-30) returns any parsed value unchanged, so it never gives a 500 for one.
  - Only a value that is not an array, or an array whose `find` reaches a `null` element before any match, makes `.length`, `.push` or `.find` fail in the POSTs and gives a 500. For example, in the unlock POST a zero-length non-array such as `""` passes the `.length === 0` test and then fails at `.push`.
- Body fields are modelled as absent or a string. JSON numbers, booleans and objects, and their truthiness (`0`, `false`), are not modelled. A body that fails to parse, or is `null`, is the one 500 case of the content POST.
- Query strings are taken as already decoded `(name, value)` pairs. URL parsing and percent-decoding are not modelled.
- `AppRoute.PadEnd` counts characters as Unicode scalar values. JavaScript counts UTF-16 code units, so for ids with characters outside the Basic Multilingual Plane the padded length differs.
- `readContract(getPayee)`, `BigInt`, `encodeFunctionData` and `serializeTransaction` are oracles. ABI and RLP encoding, the exact `BigInt` syntax of price strings, and the chain node are foreign code or network access.
- `createMetadata` is taken to accept the metadata unchanged, so the GET's 500 "Failed to create metadata" path is not modelled. It is foreign validation code.
- The `details` text of the POST's 500 body is not modelled. It is an exception message from foreign code.
- The `console.error` logging in the catch blocks is not modelled. It is diagnostic output with no effect on the response.
- CORS headers and the `OPTIONS` handlers are constant responses with no logic.
- `new Date().toISOString()` is a clock. The timestamp is a parameter instead.
- Concurrent requests are not modelled, in particular two appends racing on the catalog file.
- The dashboard and other UI files, the wagmi and Next.js configuration, the ABI tables and the manual test script are not part of this model.
