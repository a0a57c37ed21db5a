# rm: a Dafny model

`rm` moves articles saved in Pocket onto a reMarkable tablet. It polls
Pocket for items tagged `rm`, fetches each article, converts it to EPUB with
pandoc, and uploads the file to the reMarkable cloud. This project models
the core of that pipeline in Dafny and proves properties of the model:

- `Pocket` (pocket/retrieve.go) covers the request options and how they
  override each other, and the rules `encoding/json` applies when it decodes
  the reply (`,string` ids, nulls, the "empty list" versus "malformed list"
  rule). It also covers unpacking the item map, the in-place sort by
  `sort_id`, the URL check of `Retrieve`, and one tick of `Tail`.
- `RemoteStore` (api.go) covers token validation in `NewConnection`,
  `NewUserToken`, and path normalisation. It also covers `MkDir` and `Put`
  over the cloud's file tree, a map from paths to nodes.
- `Document` (document.go) covers the slug and title of an article, the
  metadata object, and the pandoc command that `DocumentToEPUB` runs.
- `UrlToEpub` (cmd/url-to-epub/main.go) covers the title, the slug, the
  `<id>-<slug>.epub` output path, and what `item2epub` returns.
- `PocketTail` (cmd/pocket-tail/main.go) covers the permission check on the
  credentials file and the poll loop with its cursor.
- `Rmd` (cmd/rmd/main.go) covers:
  - the bounded reconnect of `rmConnect`, as a recursive function and as a
    loop that rewrites the user token in the configuration;
  - the uploader's decisions for one document and its loop over documents,
    as a class holding the connection;
  - the numbering of workers by `appMain`;
  - the file a worker hands to the uploader.
- Three helper modules: `GoLib` has int64 wrap-around, decimal formatting
  and parsing, `strings.Trim*`, the `path` segments, `path.Clean` and `path.Join`; `Json` is a parsed
  JSON value with Go's field-decoding rules; `Wrappers` has `Option` and
  `Result`.

Everything outside the process is an input to the model. That covers the
HTTP replies, `url.Parse`, readability, `sanitize.Name` / `sanitize.HTML`,
the cloud's `CreateApiCtx` / `CreateDir` / `UploadDocument`, temporary
files, `os.Remove` and pandoc. Each is a function-typed parameter or the
outcome value of the call.

## Notes on the code

Where the code and its documentation disagree, the model follows the code:

- **Sorting.** `sort.Sort` is not stable, and the items come from Go's
  unordered map iteration. Items with equal `sort_id` therefore come out in
  no fixed order. `Pocket.Retrieved` promises only "sorted and a
  permutation".
- **Normalisation is not idempotent.** `Trim(TrimSpace(p), "/")` can expose
  new white space: `"/ a"` becomes `" a"` and then `"a"`. See
  `RemoteStore.NormalizeIdempotentIff`.
- **rmd file names can collide.** rmd names its EPUB files after the slug
  alone. Two articles with the same title write to, and upload from, the
  same path (`Rmd.SameTitleSamePath`). url-to-epub puts the item id first,
  so its paths are distinct (`UrlToEpub.OutPathsDistinct`).
- **Reconnect length.** After a failed upload, rmd reconnects with the full
  `rmConnect`. That is up to `ConnectionAttempts` token requests, not one.
- **Name of an uploaded document.** `Put` takes it from rmapi's
  `DocPathToName`: the `path.Base` of the file without its extension.
- **An existing remote file keeps the local one.** When `Put` reports that
  the document already exists, on the first try or after the reconnect, the
  uploader moves on at once (cmd/rmd/main.go:53-56, 67-70). The local file
  is not removed, even without `keep` (`Rmd.UploadPolicy`: `Skipped`).
- **An abandoned upload keeps the local file.** When the `Put` after the
  reconnect fails, the uploader moves on (cmd/rmd/main.go:71-74). The file
  stays, whatever `keep` says (`Abandoned` carries no removal).
- **Output paths are cleaned.** `path.Join` cleans its result, so `-out
  ./epubs` writes `epubs/<id>-<slug>.epub` (`GoLib.JoinPathCleansDot`).

## Model

| member | source | states |
|---|---|---|
| `GoLib.Inc` | pocket/retrieve.go:176 | `since + 1` on int64 wraps modulo 2^64 and grows below the maximum |
| `GoLib.FormatThenParse` | cmd/url-to-epub/main.go:63 | the decimal text `%d` writes for an id parses back to that id |
| `GoLib.CleanNames` | cmd/url-to-epub/main.go:64 | the names `path.Clean` keeps are non-empty, slash-free and never "."; a rooted path keeps no ".." |
| `GoLib.SegmentsOfJoinNames` | cmd/url-to-epub/main.go:64 | splitting names joined by '/' gives the same names back |
| `GoLib.JoinPathSegments` | cmd/url-to-epub/main.go:64 | `path.Join(dir, name)` with a single ordinary name has the segments of the cleaned `dir` followed by `name` |
| `GoLib.JoinPathCleansDot` | cmd/url-to-epub/main.go:64 | joining a name to `./d` gives `d/name`: the leading "./" is cleaned away |
| `Json.DecodeString` | pocket/retrieve.go:28-33 | a string field accepts a JSON string, storing it, or null, leaving ""; every other value is rejected |
| `Json.DecodeInt64` | pocket/retrieve.go:34 | a number field accepts null, leaving 0, or an integer literal within int64, with that value; every other value is rejected |
| `Json.DecodeQuotedInt64` | pocket/retrieve.go:26-27 | a `,string` field wants a quoted integer within int64, with that value; null and the quoted word "null" leave 0; every other value is an error |
| `Json.QuotedIntRoundTrip` | pocket/retrieve.go:26-27 | a quoted decimal int64 decodes to itself |
| `Pocket.Applied` | pocket/retrieve.go:51-73 | each option writes exactly its own field (since, tag or state) and leaves every other field alone |
| `Pocket.LaterOptionOverrides` | pocket/retrieve.go:43-45 | of two options on the same field, the later wins |
| `Pocket.AppliedAllIsLastPerField` | pocket/retrieve.go:43-45 | applying options in order equals applying only the last option per field |
| `Pocket.RetrieveOptions.constructor` | pocket/retrieve.go:37-47 | `NewRetrieveOptions` gives the defaults (article, oldest, simple) with the options applied in order |
| `Pocket.RetrieveOptions.Apply` | pocket/retrieve.go:49-73 | calling an option closure updates the request in place as `Applied` says |
| `Pocket.ItemRoundTrip` | pocket/retrieve.go:25-35 | every item as the service writes it decodes back to the same item |
| `Pocket.DecodeItemMap` | pocket/retrieve.go:88-90 | the `list` object decodes exactly when every entry decodes; keys are kept and each entry maps to its decoded item |
| `Pocket.Unmarshal` | pocket/retrieve.go:102-133 | a metadata error is returned as is; otherwise the reply is accepted exactly when `list` is absent, null, an object of decodable items or an empty array, and is otherwise "unexpected json type" (details below) |
| `Pocket.Unpack` | pocket/retrieve.go:143-146 | the items are the map's values, one per key, in some order of the keys; an item is in the list exactly when it is a value of the map |
| `Pocket.UnpackingMembers` | pocket/retrieve.go:143-146 | an item is in the unpacked list exactly when it is a value of the map |
| `Pocket.InsertLast` | pocket/retrieve.go:195-199 | one insertion step extends the sorted prefix by one and permutes the array |
| `Pocket.SortBySortId` | pocket/retrieve.go:147 | the array ends sorted by `sort_id` and is a permutation of what it held |
| `Pocket.SortOrderOfDistinctKeys` | pocket/retrieve.go:198 | items with sort ids 3, 1, 2 come out in the order 1, 2, 3 |
| `Pocket.ParseResolvedUrls` | pocket/retrieve.go:148-155 | no failure exactly when every `resolved_url` parses; a failure is the parse error of the first item whose `resolved_url` does not parse |
| `Pocket.Retrieve` | pocket/retrieve.go:135-160 | transport and decoding errors are passed on; otherwise success exactly when every `resolved_url` parses, with the map's values sorted by `sort_id` and the reply's `since`; a failure carries the parse error of the failing item first in `sort_id` order (details below) |
| `Pocket.FirstFailureIsLeast` | pocket/retrieve.go:147-153 | in the items sorted by `sort_id`, the first whose `resolved_url` fails to parse has the least `sort_id` among all failing items of the reply |
| `Pocket.TargetUrl` | pocket/retrieve.go:178-181 | the URL followed is `resolved_url`, or `given_url` when that is empty |
| `Pocket.TailTick` | pocket/retrieve.go:170-188 | an error is sent alone and the request is kept; on success `since` becomes the reply's since + 1 and one value is sent per item, in order |
| `RemoteStore.NewConnection` | api.go:24-36 | empty device token first, then empty user token, are errors; otherwise the API context's outcome; success exactly when both tokens are set and the context is created |
| `RemoteStore.NewUserToken` | api.go:38-47 | the new token when the request succeeds; otherwise the empty token and the wrapped error |
| `RemoteStore.MessageEndsWithCause` | api.go:24-99 | every error that wraps a cause (the API context's, a token request's, a directory creation's, an upload's) ends its message with the cause's text |
| `RemoteStore.Normalize` | api.go:50 | the normalised path neither starts nor ends with '/' and is no longer than the input |
| `RemoteStore.NormalizeIdempotentIff` | api.go:80 | normalising twice equals normalising once exactly when the result has no surrounding white space |
| `RemoteStore.NormalizeNotIdempotent` | api.go:50 | for every character `a` other than '/' and white space, `"/ a"` does not normalise to `"a"`, but normalising it twice does |
| `RemoteStore.NodeByPath` | api.go:52 | an empty path stays at the starting node; a path starting with '/' is looked up from the root |
| `RemoteStore.DocPathToName` | api.go:81 | the document name is "/" or contains no '/' |
| `RemoteStore.MkDirSpec` | api.go:49-77 | an existing directory is kept and a file at the path is an error; a new path is handled as `MkDirBelow` says; errors leave the tree unchanged and success leaves a directory at the path (details below) |
| `RemoteStore.MkDirBelow` | api.go:59-77 | a missing or non-directory parent is an error; otherwise the directory is created under its parent, with "" as the root's id; errors leave the tree unchanged |
| `RemoteStore.PutSpec` | api.go:79-99 | a missing destination directory is an error; inside an existing one, `PutInDir` decides; errors leave the tree unchanged (details below) |
| `RemoteStore.PutInDir` | api.go:88-99 | a document of the same name is "file already exists"; a failed upload is wrapped; otherwise exactly one new file node is added under the directory, with the uploaded id |
| `RemoteStore.NameKey` | api.go:88-97 | a document name missing under an existing directory is one new, non-empty name below it |
| `RemoteStore.AddNodeWellFormed` | api.go:75 | adding a node under an existing directory keeps every node inside a directory |
| `RemoteStore.MkDirKeepsWellFormed` | api.go:49-77 | MkDir keeps every node of the tree inside a directory |
| `RemoteStore.PutKeepsWellFormed` | api.go:79-99 | Put keeps every node of the tree inside a directory |
| `RemoteStore.MkDirTwice` | api.go:52-58 | making a directory that MkDir has just made or found returns no error and changes nothing |
| `RemoteStore.PutTwice` | api.go:88-91 | putting the same file into the same directory again reports "file already exists" and changes nothing |
| `RemoteStore.Connection.constructor` | api.go:35 | a connection starts from the file tree that the API context loaded |
| `RemoteStore.Connection.MkDir` | api.go:49-77 | the error and new tree are those of `MkDirSpec`, and the tree stays well formed |
| `RemoteStore.Connection.MkDirIn` | api.go:59-77 | the error and new tree are those of `MkDirBelow`, and the tree stays well formed |
| `RemoteStore.Connection.Put` | api.go:79-99 | the error and new tree are those of `PutSpec`, and the tree stays well formed |
| `RemoteStore.Connection.PutIn` | api.go:88-99 | the error and new tree are those of `PutInDir`, and the tree stays well formed |
| `Document.TitleSource` | document.go:29-49 | the article's title, else its site name, else the fallback: the first non-empty of the three |
| `Document.Slug` | document.go:29-38 | `sanitize.Name` of the first non-empty of title, site name and "Untitled" |
| `Document.Title` | document.go:40-49 | `sanitize.HTML` of the same choice |
| `Document.Metadata` | document.go:68-71 | an object whose only member `title` decodes to the title |
| `Document.PandocArgs` | document.go:84-85 | `-o filename -f html --metadata-file metafile`, in that order |
| `Document.DocumentToEpub` | document.go:67-87 | pandoc runs, with these arguments and the content on stdin, exactly when the metadata file is created and written; its error is returned; earlier failures carry their own messages |
| `UrlToEpub.MakeTitle` | cmd/url-to-epub/main.go:35-44 | `sanitize.HTML` of the first non-empty of title, site name and "No Title" |
| `UrlToEpub.MakeSlug` | cmd/url-to-epub/main.go:46-55 | `sanitize.Name` of the same choice |
| `UrlToEpub.BasenameStartsWithId` | cmd/url-to-epub/main.go:63 | the file name starts with the item's id, which reads back from it |
| `UrlToEpub.OutPathInDirectory` | cmd/url-to-epub/main.go:63-64 | for a slug without '/', the output file lies directly in the output directory, as `path.Clean` writes it |
| `UrlToEpub.OutPathsDistinct` | cmd/url-to-epub/main.go:63-64 | items with different ids never share an output path |
| `UrlToEpub.ConverterArgs` | cmd/url-to-epub/main.go:65-66 | `-o outPath -f html --metadata title=<title>` |
| `UrlToEpub.Item2Epub` | cmd/url-to-epub/main.go:57-71 | the output path and no error exactly when the fetch and the conversion succeed; otherwise "" and the fetch error, or after a fetched article the converter's own error |
| `PocketTail.TooOpen` | cmd/pocket-tail/main.go:34-37 | the file is refused exactly when group or others have any permission bit |
| `PocketTail.TooOpenExamples` | cmd/pocket-tail/main.go:34-37 | 0600, 0400 and 0700 are accepted; 0640 and 0604 are refused |
| `PocketTail.Request` | cmd/pocket-tail/main.go:54 | a poll asks for unread items tagged "rm" since the cursor, other fields at their defaults |
| `PocketTail.CrashAtFirstFailure` | cmd/pocket-tail/main.go:54-60 | as written, the loop stops at the first failed poll exactly when some poll fails |
| `PocketTail.UnreachableServiceCrashes` | cmd/pocket-tail/main.go:54-55 | a single unreachable poll ends the loop as written |
| `PocketTail.CursorBeforeAnySuccess` | cmd/pocket-tail/main.go:49-60 | the cursor is 0 until a poll succeeds |
| `PocketTail.CursorFollowsLastSuccess` | cmd/pocket-tail/main.go:49-60 | after a successful poll, the cursor is its reply's since + 1 until the next successful poll |
| `PocketTail.TargetUrls` | cmd/pocket-tail/main.go:61-66 | one line per item, in order: its resolved URL, else its given URL |
| `PocketTail.PollLoop` | cmd/pocket-tail/main.go:48-68 | no pause before the first poll and the interval after; each request carries the cursor; the output is the URLs of the successful polls in order |
| `Rmd.Conf.constructor` | cmd/rmd/main.go:21-32 | the configuration holds the attempts, keep flag, directories and tokens given |
| `Rmd.Retry` | cmd/rmd/main.go:148-166 | the retry loop from iteration `i` makes at least `i` and at most `max(i, attempts)` token requests in all |
| `Rmd.RetryConnects` | cmd/rmd/main.go:148-166 | the retry loop connects exactly when some remaining attempt connects |
| `Rmd.RetryStopsAtFirst` | cmd/rmd/main.go:157-160 | a connection comes from the last request made, and every earlier attempt failed |
| `Rmd.RetryLeftover` | cmd/rmd/main.go:148-166 | without a connection every attempt is used; the user token left is the last reply's and the error the last attempt's (details below) |
| `Rmd.ConnectContract` | cmd/rmd/main.go:141-169 | no request when the configured token connects; otherwise at most `attempts` retries; success exactly when the first try or some retry connects |
| `Rmd.RmConnect` | cmd/rmd/main.go:141-169 | the loop returns the connection or error of `Connect` and leaves its last user token in conf |
| `Rmd.UploadPolicy` | cmd/rmd/main.go:50-84 | an existing file is skipped after one Put; any other Put error costs exactly one reconnect and at most one more Put; the file is removed only after an upload and only without `keep` |
| `Rmd.FailedReconnectThenCrash` | cmd/rmd/main.go:60-64 | as written, after a failed reconnect the next document dereferences a nil connection |
| `Rmd.NilConnectionCounterexample` | cmd/rmd/main.go:52-64 | an expired session with the token service offline, then any document, crashes the uploader |
| `Rmd.HandleDoc` | cmd/rmd/main.go:50-84 | the corrected step never crashes and always keeps a connection; otherwise it acts as written |
| `Rmd.RunFrom` | cmd/rmd/main.go:48-89 | with the corrected step, the uploader always keeps a connection |
| `Rmd.RunFromHandlesAll` | cmd/rmd/main.go:48-89 | no document crashes the loop; there is at most one fate per event, and exactly one when no stop request comes |
| `Rmd.Uploader.constructor` | cmd/rmd/main.go:200 | the uploader starts with the configuration and a live connection |
| `Rmd.Uploader.Upload` | cmd/rmd/main.go:50-84 | the fate, connection and user token after one document are those of `HandleDoc` |
| `Rmd.Uploader.Run` | cmd/rmd/main.go:48-89 | the fates and final state of the select loop are those of `RunFrom` |
| `Rmd.Uploader.Step` | cmd/rmd/main.go:49-85 | one turn of the loop on a document gives that document's fate, and the loop goes on from the state it leaves |
| `Rmd.Dispatch` | cmd/rmd/main.go:207-221 | one worker per URL, numbered 0, 1, 2, ... in order; every other value is only a warning |
| `Rmd.Worker` | cmd/rmd/main.go:94-123 | a document reaches the uploader exactly when fetching and conversion succeed, as `path.Join(workDir, slug + ".epub")` with the worker's id |
| `Rmd.SameTitleSamePath` | cmd/rmd/main.go:111-112 | two articles with the same non-empty title get the same work file |

Details of the longer contracts:

- **`Pocket.Unmarshal`:**
  - a metadata error is returned as is;
  - otherwise the reply is accepted exactly when `list` is absent, null or
    an object of decodable items, or an empty array;
  - anything else is "unexpected json type";
  - an accepted reply keeps `since` and holds the decoded map, or the empty
    map.
- **`Pocket.Retrieve`:**
  - a transport or decoding error is returned as is;
  - otherwise it succeeds exactly when every `resolved_url` parses;
  - on success the items are the map's values, sorted by `sort_id`, with
    the reply's `since`;
  - on failure the error is the parse error of a failing item whose
    `sort_id` is least among the failing ones, that is the first failure
    in sorted order.
- **`Pocket.TailTick`:**
  - a failed retrieve sends exactly that error and leaves the request
    unchanged;
  - a successful one moves `since` to the reply's since + 1 and sends one
    value per item, in order.
- **`RemoteStore.NewConnection`:**
  - an empty device token fails first, then an empty user token;
  - otherwise the API context's outcome is returned;
  - it succeeds exactly when both tokens are set and the context is
    created.
- **`RemoteStore.MkDirSpec`:**
  - an existing directory is left alone;
  - an existing file at the path is an error;
  - a new path is handled by `MkDirBelow`: a missing or non-directory
    parent is an error, otherwise the directory is created under its
    parent, with the root's id as "";
  - on success the directory is present, and an error leaves the tree
    unchanged.
- **`RemoteStore.PutSpec`:**
  - a missing destination directory, or a file in its place, is an error;
  - inside the directory, `PutInDir` decides: a document of the same name
    is "file already exists", a failed upload is an error, otherwise the
    upload adds exactly one file node under the directory;
  - an error leaves the tree unchanged.
- **`Document.DocumentToEpub`:**
  - pandoc runs exactly when the metadata file is created and written;
  - it runs with those arguments and the content on stdin, and its error
    is returned;
  - a failure to create the temporary metadata file, and a failure to
    write it, each return the underlying error wrapped in its own message.
- **`UrlToEpub.Item2Epub`:**
  - it returns the output path and no error exactly when the fetch and the
    conversion succeed;
  - otherwise it returns "" and an error: the fetch error when the fetch
    fails, and the converter's own error when the conversion fails.
- **`Rmd.RetryLeftover`:**
  - without a connection, it has made a request in every remaining
    iteration;
  - with no request made, it returns the error and token it started with;
  - otherwise the user token left is the last reply's ("" if that request
    failed);
  - the error is the last attempt's.
- **`Rmd.ConnectContract`:**
  - a working token makes no request;
  - otherwise there are at most `attempts` retries;
  - it succeeds exactly when the first try or some retry connects;
  - the error is the last one seen.
- **`Rmd.UploadPolicy`:**
  - an existing file costs one Put and is skipped;
  - any other Put error costs exactly one reconnect and at most one more
    Put;
  - a failed reconnect means no second Put;
  - the local file is removed only after an upload, and only when
    `keep` is false.

## Left out

- Concurrency is left out: goroutines, channels, `select`, `WaitGroup` and
  the signal fan-out. The uploader, the tailer and the dispatch loop are
  each modelled as a sequential loop over the values they receive.
- HTTP (`postJSON`, the token endpoint) is left out. Replies are inputs.
- `encoding/json` is modelled only in part. It matches keys by exact name,
  not case-insensitively, and has no floats beyond rejecting them for
  integer fields. A top-level `null` reply body is read as an empty reply
  with `since` 0, whereas Go would set the result pointer to nil and then
  dereference it.
- rmapi's `NodeByPath` is modelled without its handling of "." and ".."
  names. `path.Dir` / `path.Base` are modelled through path segments, so
  the cloud's parent of a top-level directory is the root.
- `url.Parse`, readability, `sanitize`, pandoc, `CreateApiCtx`,
  `CreateDir` and `UploadDocument` are oracles. Their own behaviour is not
  modelled.
- Timeouts, tickers and sleep durations are left out. Poll intervals are
  plain numbers.
- The CLI flags, logging and `exec.LookPath` are left out. So is
  `appMain`'s `Fatal` when the first connect or MkDir fails.
- Error identity (`errors.Is(err, rm.ErrAlreadyExists)`) is modelled as a
  distinct Put outcome. The definition of `rm.ErrAlreadyExists` is not
  part of this model.
- rm's `Retrieve`, which wraps readability, is an oracle: a fetched article
  or an error.
- `Rmd.Dispatch`: worker ids are unbounded naturals. The uint64 counter
  wraps only after 2^64 items.
- `Rmd.Uploader.Upload` takes the outcomes of its two `Put` calls and of
  `os.Remove` as inputs (a `DocScript`). It does not run
  `RemoteStore.Connection.Put` on the tree; the tree effect of `Put` is
  modelled and proved separately.
- `Document.DocumentToEpub` leaves out the deferred removal of the metadata
  file. The `json.Marshal` error branch is also left out: it cannot happen
  for a struct with one string field.
- `Pocket.SortBySortId` uses an insertion sort, not Go's `sort.Sort`
  algorithm. Its contract is only what `sort.Sort` promises: sorted and a
  permutation. The order among equal keys is not modelled.
- `Pocket.Options` holds `favorite` as a natural number, not a `uint8`. No
  modelled operation writes it.
- `PocketTail.PollLoop` calls `auth.Retrieve` with functional options, but
  pocket/retrieve.go's `Retrieve` takes a `*retrieveOptions`. The model
  builds that value with `NewRetrieveOptions` from the same options
  (`PocketTail.Request`).
- `UrlToEpub.Item2Epub` calls a `command` function that cmd/url-to-epub/main.go
  does not define. Its argument order also differs from rm's `command` in
  document.go. The model follows the evident intent: run the converter
  with these arguments and the article content on standard input.
- Reading the credentials file and decoding `pocket.Auth` in pocket-tail
  are left out. `rm.Item` decoding in url-to-epub is left out too: its
  definition is not part of this model.
- Strings are sequences of characters. UTF-8 bytes versus runes are not
  distinguished in `len` checks, which here only compare against zero.

## Findings

| source | as written | input that shows it | evidently intended | confidence | as-written member | corrected member |
|---|---|---|---|---|---|---|
| cmd/rmd/main.go:60-64 | after a failed `rmConnect`, `conn` holds the nil connection that `rmConnect` returned; the loop continues, and the next document's `conn.Put` dereferences nil | an upload fails, then the token request fails (service offline), then any further document | keep the previous connection (or retry reconnecting) so the uploader survives a failed reconnect | high (not executed) | `Rmd.NilConnectionCounterexample` | `Rmd.HandleDoc` |
| cmd/pocket-tail/main.go:54-55 | `since = res.Since + 1` runs before `err` is checked, and `Retrieve` returns a nil result with every error, so a failed poll dereferences nil | any failed poll, e.g. Pocket unreachable | log the error and keep the cursor, as `Auth.Tail` does | high (not executed) | `PocketTail.UnreachableServiceCrashes` | `PocketTail.PollLoop` |
