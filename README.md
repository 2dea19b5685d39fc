# URL shortener: slug resolution engine in Dafny

This project models the slug resolution engine of a small URL shortener. The engine exists in two server variants:

- a Cloudflare worker backed by a D1 table (`src/lib.rs`);
- an axum server backed by MySQL (`src/main.rs`).

A URL is hashed with MD5 and rendered as 32 lower-case hex characters (`shorten`). The engine then looks at the 8-character windows `digest[k..k+8]` in increasing `k`:

- a window missing from the table is taken as a new slug;
- a window that already maps to the same URL is reused;
- a window that maps to another URL is a collision, and the search moves on.

The worker also accepts a slug chosen by the caller. An empty slug means auto-generation. A non-empty slug is new when absent, reused when it already holds the URL, and an error when another URL holds it. A row is inserted only for a new slug. Lookups redirect to the stored URL.

Files:

- `fingerprint.dfy` (module `Fingerprint`): `shorten`, with MD5 as a parameter and the `{:x}` hex rendering modelled exactly; the windows of a digest.
- `slug_resolution.dfy` (module `SlugResolution`): the engine as pure functions over the table's contents, a `map` from slug to URL. `FirstOpen` and `AutoSlug` give the window search, `ExplicitSlug` and `Resolve` the two entry modes, `Commit` the write-if-new step. The lemmas here state first fit, idempotency, no overwrite and round trip.
- `worker.dfy` (module `Worker`): the D1 table as a class with a `map` field, and the `generate_slug` loop as a method proved equal to `AutoSlug`. It also holds the POST and GET handlers and `ContentType`.
- `axum_server.dfy` (module `AxumServer`): the MySQL table as a class holding a `seq` of rows. Its invariant `Valid()` says `short` is a key. `retrieve_hash_from_db` is modelled with its 0/1/many rule, and the `select_hash` loop is proved equal to `AutoSlug` on the table's map view. The file also holds the handlers.

MD5 (`md5::compute`) is a foreign function, so it becomes a parameter `md5: string -> Md5Sum`, where an `Md5Sum` is 16 bytes. `Url::parse` becomes a parameter `isUrl: string -> bool`. Panics become outcome values: `Exhausted` for the search, and `Panic` for handler replies. The database's own I/O failures on insert are an arbitrary boolean chosen inside `AddToDb`.

Behaviour of the code that the model keeps as written:

- **Windows tried.** The loop guard `count < digest.len() - 8` tries offsets 0..23 only (`Tries(d) == |d| - 8`). A 32-character digest has 25 windows of 8 characters, and the last one, at offset 24, is never looked at (`LastWindowNeverTried`).
- **Exhaustion.** When every tried window collides, the code panics; the model records this as the `Exhausted` outcome.
- **Conflict status.** A conflicting caller slug answers status 500.
- **Unknown slug.** The worker answers an unknown slug with 400; the axum server answers NOT_FOUND.
- **Success status.** The worker answers 200 JSON for both new and existing slugs. The axum server answers CREATED in both cases.
- **No reconciliation.** Neither variant re-reads the table after a failed insert.

## Model

| member | source | states |
|---|---|---|
| Fingerprint.Hex | src/lib.rs:39 | `{:x}` renders each byte as two lower-case hexadecimal characters, so the text is twice as long as the bytes |
| Fingerprint.HexInjective | src/lib.rs:39 | the hex rendering is injective: equal renderings come only from equal byte strings |
| Fingerprint.Shorten | src/lib.rs:37-40 | the digest of any URL is exactly 32 lower-case hex characters |
| Fingerprint.ShortenCollision | src/main.rs:34-37 | two URLs share a digest only when MD5 gives them the same sum |
| Fingerprint.Window | src/lib.rs:81 | a candidate slug has 8 characters, and character `i` is `digest[k + i]` |
| SlugResolution.FirstOpen | src/lib.rs:80-101 | the offset the search stops at: every earlier window collides, and the offset found (if below the bound) does not |
| SlugResolution.AutoSlug | src/lib.rs:74-107 | exhausted iff all 24 tried windows collide; otherwise the slug is window `k` for some `k < |d| - 8` with every earlier window colliding, it does not collide, and `existed` holds iff the slug is already stored (then with this URL) |
| SlugResolution.ExplicitSlug | src/lib.rs:150-166 | a caller slug is a conflict iff another URL holds it; otherwise it is kept, and `existed` holds iff it is stored |
| SlugResolution.Resolve | src/lib.rs:139-174 | no slug or an empty slug resolves exactly as `AutoSlug` on the URL's digest; conflict iff a non-empty caller slug is held by another URL; exhaustion only in auto mode; a chosen slug is non-empty, never collides, equals the caller's non-empty slug, and is `existed` iff stored |
| SlugResolution.Commit | src/lib.rs:180-185 | the write-if-new step: the keys grow by the chosen slug exactly when it is new, which then maps to the URL; every other stored entry is unchanged; nothing changes for a conflict or exhaustion |
| SlugResolution.LastWindowNeverTried | src/lib.rs:80 | when windows 0..`|d|-9` all collide the search is exhausted, even if the window at offset `|d|-8` is free |
| SlugResolution.AutoSlugAfterCollisions | src/lib.rs:86-100 | if the first `k` windows are held by other URLs and window `k` is not, the search returns window `k`, new or existing as the table says |
| SlugResolution.AutoSlugOnEmptyStore | src/lib.rs:79-100 | on an empty table a URL gets the first 8 characters of its digest, as new |
| SlugResolution.AutoSlugIdempotent | src/lib.rs:86-100 | after the chosen slug is written, the same URL finds the same slug, now as existing |
| SlugResolution.CommitKeepsRecords | src/lib.rs:176-185 | the write-if-new step keeps every stored record, maps the chosen slug to the URL, writes nothing for an existing slug or a failure, and otherwise adds exactly the new key |
| SlugResolution.ResolveIdempotent | src/lib.rs:139-185 | resolving and committing the same request twice gives the same slug, reported as existing, and the second commit writes nothing |
| SlugResolution.ConflictLeavesStore | src/lib.rs:153-160 | a non-empty caller slug held by another URL is a conflict, the table is unchanged and still maps the slug to the other URL |
| Worker.UrlTable.RetrieveSlug | src/lib.rs:42-48 | the lookup finds a row iff the slug is a key, and the row carries the stored URL |
| Worker.UrlTable.AddToDb | src/lib.rs:50-72 | a successful insert adds exactly the new key; a failed one (key present, or database failure) changes nothing |
| Worker.GenerateSlug | src/lib.rs:74-107 | the loop returns exactly `AutoSlug` of the table and the URL's digest, reading the table without changing it |
| Worker.HandlePostUrl | src/lib.rs:135-187 | the reply and the new table follow `Resolve` and `Commit`: JSON with the resolved slug after a commit, 500 with no write on conflict, a panic with no write on exhaustion, and an existing slug is never written |
| Worker.HandleGetUrl | src/lib.rs:193-210 | redirects to the stored URL iff the slug is stored and the URL parses; 400 when the parameter is missing or the slug unknown; fails when the stored URL does not parse |
| Worker.PostThenGet | src/lib.rs:176-203 | after a successful POST the table maps the returned slug to the posted URL, and GET on it redirects there |
| Worker.PostTwice | src/lib.rs:139-186 | posting the same request twice gives the same reply, and the table then differs from the start only by the slug mapping to the URL |
| Worker.FromExt | src/lib.rs:250-257 | "css", "html" and "png" map to their types, each exactly for that extension; anything else is TXT |
| Worker.ToStr | src/lib.rs:258-265 | the header value is "text/plain" exactly for TXT |
| Worker.ContentTypeHeaders | src/lib.rs:242-266 | distinct types have distinct header values; an extension is served as "text/plain" iff it is not css/html/png; "css" is served as "text/css" |
| AxumServer.Matching | src/main.rs:55-63 | the query result holds exactly the rows whose `short` equals the hash, each as many times as in the table |
| AxumServer.TableMap | src/main.rs:64-69 | the map view's keys are exactly the hashes present in the rows |
| AxumServer.TableMapHoldsRows | src/main.rs:67-69 | with unique keys, the map view gives each row's URL under its hash |
| AxumServer.UniqueMatch | src/main.rs:70-73 | with unique keys a hash matches at most one row, so the "more than one" branch cannot happen |
| AxumServer.UrlsTable.RetrieveHash | src/main.rs:49-74 | no match iff the hash is absent; a match is a stored row for that hash; on a valid table there are never several matches, and the match carries the mapped URL |
| AxumServer.UrlsTable.AddToDb | src/main.rs:76-91 | a successful insert appends the row for an absent hash and extends the map view by it, keeping the keys unique; a failed one changes nothing |
| AxumServer.SelectHash | src/main.rs:93-124 | the loop returns exactly `AutoSlug` of the table's map view and the URL's digest, reading the table without changing it |
| AxumServer.UrlPostHandler | src/main.rs:126-143 | answers CREATED with the selected hash whenever a slot was found, appending a row only for a new hash; exhaustion or a failed insert panics with no write; keys stay unique |
| AxumServer.ShortUrlGetHandler | src/main.rs:145-165 | on a valid table, redirects to the URL mapped to the hash, or NOT_FOUND when it is absent; panics only on an invalid table |
| AxumServer.PostThenGet | src/main.rs:126-165 | after a CREATED reply, GET on the returned hash redirects to the posted URL |
| AxumServer.PostTwice | src/main.rs:126-143 | posting the same URL twice gives the same reply; the rows are the old ones, or the old ones plus the first reply's row; the map view is the old one with the hash mapped to the URL, so the second call writes nothing |

## Left out

- MD5 itself (`md5::compute`) is a foreign crate. It is a parameter of type `string -> Md5Sum` (16 bytes), so determinism holds by construction, and nothing is assumed about how often sums collide.
- `Url::parse` is foreign. It is a parameter `isUrl`, and its error is the `Failed` reply. The worker redirects to the parsed URL written back out as text, which can differ from the stored text (lower-cased host, added trailing slash); the model redirects to the stored text as it is.
- Database plumbing is not modelled: prepared statements, `bind`, `run`, `first`, `query_map`, connection pools, `init_db` and the schema file. The table key is taken to be the slug (`short` in MySQL). A duplicate insert is refused, and any other insert failure is an arbitrary outcome.
- The `unwrap`/`expect` panics on connections and queries during lookups are not modelled: lookups always answer. On insert, the worker's `Err` becomes 500 and the axum `expect` becomes `Panic`.
- The SQL text is string-formatted at src/main.rs:57. The model treats it as an exact match on the hash. A path parameter containing a quote would change the query, and the model does not capture this.
- HTTP routing, JSON parsing of the request (`req.json()?`), response bodies and error messages are left out. Replies keep only what tells the outcomes apart.
- Templates (`HomeTemplate`, `handle_home`), serving assets from KV (`handle_assets`, apart from the `ContentType` mapping), logging, dotenv, tracing, `main` and the panic hook are left out.
- Concurrent requests are left out. Each handler call runs on its own, and the check-then-insert race between two requests is not modelled.

Notes on what is deliberately weaker or coarser:

- Worker.HandlePostUrl: for a new slug, the contract allows either the JSON reply with the write or 500 with no write. The model cannot say which one, because the database's insert outcome is not modelled.
- AxumServer.UrlPostHandler: for a new hash, the contract allows either CREATED with the row appended or a panic with no write, for the same reason.
