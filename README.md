# APVE request pipeline, fingerprint matcher and PoC selection — a Dafny model

This project models the core of the APVE web vulnerability scanner. It has three parts.

- **The HTTP request library.** This covers the retry loop with its default policy and middleware composition (logger, header, cookie and retry layers). It also covers query/form encoding from maps and structs with embedded fields, the `DialOption` record and the options that edit it, and the client's `do`, which applies per-call options to a copy of the stored record, builds the request with canonical header names, clears the cookie jar outside session mode and runs the chain around `exec`, whose responses' cookies a session jar keeps. Finally it covers reading a response (`Content`, `Text`, `JSON`, `XML`, `Raw`).
- **The web fingerprint matcher.** `checkRule` handles `title="…"`, `body="…"` and `header="…"` clauses. `identifyResponse` handles its four kinds of key (`a||b`, `a&&b`, a plain rule, and one bracketed group) and its md5 probes of extra paths. The charset normalisation of the page fetcher is modelled too.
- **The PoC registry and the fingerprint filter.** This covers `AddPocObj` and `pocManage` with `FingerMatch`.

Go closures are modelled as data. A `DialOption` is a datatype constructor, and its effect is `Options.Step`. A handler is the syntax `Exec | Wrap(layer, next)`, run by the interpreter `Middleware.Serve` over a `World` (cookie jar, request, number of terminal calls, trace). Objects the Go code updates in place are classes:
- `Options.DialOptions` (`dialOptions`),
- `Encoding.Values` (`url.Values`),
- `Requests.Client`,
- `Types.HttpClient` (its jar),
- `Responses.Body` and `Responses.Response`,
- `Protocols.Registry` (the package-level slice),
- `VulScan.PocManage`.

Each loop in the source is a method with invariants, proved equal to a specification function whose properties are lemmas. The exception is `checkRule`'s nested scan of the header values (app/APVE/pkg/core/fingerscan/web.go:113-119): `checkRule` only computes a boolean, so that scan is the existential predicate `FingerScan.HeaderHit` and has no method of its own.

The network, clocks, the JSON/XML/multipart encoders, `url.Values.Encode`, `fmt.Sprint`, the page fetcher and md5 are parameters (oracles). Errors are their messages (`Types.Error = string`), a nil error is `None`, and durations are nanoseconds as unbounded integers.

Where the library's own description and its code differ, the model follows the code:
- the retry layer is appended last, so it is innermost: the logger and header layers run once per call, not once per attempt (`Middleware.RetryIsInnermost`);
- `WithQuery` on a value that is neither a map nor a struct panics rather than recording an error (`Options.QueryOfScalarPanics`).

## Model

Source paths are relative to the repository root.

| member | source | states |
|---|---|---|
| Retry.NewRetry | app/APVE/pkg/common/requests/retry.go:30-38 | the settings are read once from the `Retry` value: max retries, wait time, max wait, conditions and policy are exactly the interface's answers |
| Retry.DefaultRetrySettings | app/APVE/pkg/common/requests/retry.go:90-120 | the default retry has 3 retries, a 100µs base wait, a 10s ceiling and one condition |
| Retry.DefaultPolicyBounded | app/APVE/pkg/common/requests/retry.go:112-120 | the default wait never exceeds the ceiling and never fails |
| Retry.DefaultPolicyMonotone | app/APVE/pkg/common/requests/retry.go:112-120 | for a non-negative base, the default wait does not decrease with the attempt number |
| Retry.DefaultPolicyLinear | app/APVE/pkg/common/requests/retry.go:114 | below the ceiling the wait is `min * (attempt + 1)` |
| Retry.DefaultPolicyExample | app/APVE/pkg/common/requests/retry.go:112-120 | with 100ms and 1s: 100ms, 200ms, 300ms, and the ceiling from attempt 9 on |
| Retry.BackoffShape | app/APVE/pkg/common/requests/retry.go:40-88 | every run of `backoff` is well formed: at most `maxRetries + 1` calls; every non-final attempt asked for a retry and got its wait; the result matches how the run ended (no retry wanted, context failed, policy failed, cancelled during the wait, retries exhausted) |
| Retry.LoopShape | app/APVE/pkg/common/requests/retry.go:45-87 | the loop from any attempt on ends in a well-formed run, given a well-formed history |
| Retry.BackoffCallsBounded | app/APVE/pkg/common/requests/retry.go:45 | with `maxRetries >= 0` the handler is called at least once and at most `maxRetries + 1` times |
| Retry.BackoffPreserves | app/APVE/pkg/common/requests/retry.go:45-87 | any invariant of the handler's state holds after `backoff` |
| Retry.LoopPreserves | app/APVE/pkg/common/requests/retry.go:45-87 | the same, for the loop from any attempt on |
| Retry.BackoffCounts | app/APVE/pkg/common/requests/retry.go:51 | a counter each handler call increments rises by exactly the number of attempts |
| Retry.LoopCounts | app/APVE/pkg/common/requests/retry.go:45-86 | the same, for the loop from any attempt on |
| Retry.RunBackoff | app/APVE/pkg/common/requests/retry.go:40-88 | the imperative loop returns the response, error, exit and state of the specification `Backoff` |
| Retry.DefaultRetryAlwaysFailing | app/APVE/pkg/common/requests/retry.go:45-120 | with the default retry and a handler that always fails: 4 attempts, waits of 100, 200, 300 and 400µs, and the last error is returned with no response |
| Middleware.LayersCompose | app/APVE/pkg/common/requests/middleware.go:14-21 | the chained handler's layers are the middlewares in the listed order, outermost first |
| Middleware.ComposeAppend | app/APVE/pkg/common/requests/middleware.go:14-21 | chaining `xs + ys` is chaining `xs` around the chain of `ys` |
| Middleware.Chain | app/APVE/pkg/common/requests/middleware.go:14-21 | the descending loop builds `m1(m2(…mn(next)))`, which is `next` itself for no middlewares |
| Headers.CanonicalKey | app/APVE/pkg/common/requests/middleware.go:56 | the key `Header.Set` files a value under has the given key's length, and is the key itself when a character is not a token character |
| Headers.CanonicalAt | app/APVE/pkg/common/requests/middleware.go:56 | in a token key, a character is upper-cased when it is first or follows `-`, and lower-cased otherwise |
| Headers.CanonicalIdempotent | app/APVE/pkg/common/requests/middleware.go:56 | a canonical key is its own canonical key |
| Headers.CanonicalIgnoresCase | app/APVE/pkg/common/requests/middleware.go:56 | a token key and any key equal to it up to ASCII case name the same header |
| Headers.CanonicalDeterminesCase | app/APVE/pkg/common/requests/middleware.go:56 | a key naming the same header as a token key is equal to it up to ASCII case |
| Headers.ContentTypeIsCanonical | app/APVE/pkg/common/requests/option.go:38-40 | `Content-Type`, the header the body options (`WithJSON`, `WithXML`, `WithForm`, `WithFile`) set through `setContentType`, is canonical |
| Headers.OverwriteKeys | app/APVE/pkg/common/requests/middleware.go:55-57 | after the `Set` loop the header names are the old ones plus the canonical keys of the visited entries |
| Headers.OverwriteLastWins | app/APVE/pkg/common/requests/middleware.go:55-57 | among visited keys naming one header, the value of the last one visited is the one kept |
| Headers.OverwriteKeeps | app/APVE/pkg/common/requests/middleware.go:55-57 | a header that no visited key names keeps its old value |
| Headers.OverwriteSpec | app/APVE/pkg/common/requests/middleware.go:55-57 | when `range` visits each key once: the header names are the old ones plus the canonical form of every key; a key that alone names its header sets it; every other header keeps its value |
| Headers.CaseVariantOverrides | app/APVE/pkg/common/requests/middleware.go:55-57 | setting `content-type` (any spelling of a canonical header) replaces the `Content-Type` value and leaves every other header alone, rather than adding a second entry |
| Headers.SetHeaders | app/APVE/pkg/common/requests/requests.go:155-157 | the `Set` loop, in the visiting order, yields exactly the specification `Overwrite` |
| Middleware.WithCookieJar | app/APVE/pkg/common/requests/middleware.go:66-72 | no cookies leave the jar alone; otherwise a nil jar is created and the cookies for the URL are added last, keeping earlier batches |
| Middleware.LoggerPassesThrough | app/APVE/pkg/common/requests/middleware.go:23-40 | the logger returns what `next` returns, having called it once |
| Middleware.StoreCookies | app/APVE/pkg/common/requests/requests.go:207 | a response's cookies go into a non-nil jar as one more batch for the request URL, earlier batches kept; a nil jar stays nil |
| Middleware.HeaderLayerSetsHeaders | app/APVE/pkg/common/requests/middleware.go:52-61 | the header layer calls `next` once, with its headers `Set` over the old ones by canonical key in the map's visiting order, and with the same jar, URL and body |
| Middleware.JarOnlyGrows | app/APVE/pkg/common/requests/middleware.go:42-76 | with the library's layers and no cookie layer, only responses change the jar: a nil jar stays nil, a jar only gains batches, and every terminal call sees a jar extending the starting one |
| Middleware.TargetUntouched | app/APVE/pkg/common/requests/middleware.go:42-76 | with the library's layers, every terminal call gets the starting method, URL, body and trace |
| Middleware.GrowsTransitive | app/APVE/pkg/common/requests/middleware.go:42-76 | trace growth with a property of every send composes |
| Middleware.GrowsThroughEntry | app/APVE/pkg/common/requests/middleware.go:42-76 | a layer's entry event does not break that growth |
| Middleware.ResendsSeeEarlierCookies | app/APVE/pkg/common/requests/middleware.go:42-50 | resend `i` carries the jar as the `i` earlier sends' responses left it, and later jars extend earlier ones |
| Middleware.ResendsWithoutCookies | app/APVE/pkg/common/requests/middleware.go:42-50 | when no response sets a cookie, the resends are identical sends with the starting jar, which is kept |
| Middleware.RetryResendsSameRequest | app/APVE/pkg/common/requests/middleware.go:42-50 | around `exec`, the retry layer sends the same request once per attempt, each with the jar the earlier attempts' responses left, and returns what `backoff` returns |
| Middleware.RetryIsInnermost | app/APVE/pkg/common/requests/requests.go:172-180 | with debug, one header layer and the default retry, a failing call is sent 4 times while the logger and header layers run once |
| Encoding.Indirect | app/APVE/pkg/common/requests/util.go:38 | one pointer level is followed; a nil pointer becomes the zero value |
| Encoding.Key | app/APVE/pkg/common/requests/util.go:51-55 | the parameter name is the `form` tag when present, else the field name |
| Encoding.AddPair | app/APVE/pkg/common/requests/util.go:56 | `url.Values.Add` appends the value under its key and leaves other keys alone |
| Encoding.AddAllLookup | app/APVE/pkg/common/requests/util.go:37-58 | after adding pairs, each key holds its old values followed by the added ones, in order |
| Encoding.AddAllAppend | app/APVE/pkg/common/requests/util.go:37-58 | adding `p + q` is adding `p` and then `q` |
| Encoding.Values.constructor | app/APVE/pkg/common/requests/util.go:16 | a new `url.Values` is empty |
| Encoding.Values.Add | app/APVE/pkg/common/requests/util.go:21 | `Add` appends to the key's values |
| Encoding.Values.Set | app/APVE/pkg/common/requests/util.go:32 | `Set` replaces the key's values by the one value |
| Encoding.ReflectToValues | app/APVE/pkg/common/requests/util.go:37-58 | the values gain the flattened pairs, and the panic is the flattening's; pairs added before a panic stay |
| Encoding.AddFields | app/APVE/pkg/common/requests/util.go:44-57 | the field loop adds the pairs of all fields, stopping at a panic |
| Encoding.AddField | app/APVE/pkg/common/requests/util.go:45-56 | one iteration: an embedded field is flattened recursively, a named field adds one pair |
| Encoding.FieldsStep | app/APVE/pkg/common/requests/util.go:44-57 | one more field extends the added pairs by exactly that field's pairs |
| Encoding.FlattenFieldsStops | app/APVE/pkg/common/requests/util.go:42-48 | once a field panics, later fields add nothing |
| Encoding.MapToValues | app/APVE/pkg/common/requests/util.go:29-35 | the loop of `Set` calls builds exactly `SingleValues(params)`: every key its single value and no other keys |
| Encoding.SingleValues | app/APVE/pkg/common/requests/util.go:29-35 | the same as a function |
| Encoding.StructToValues | app/APVE/pkg/common/requests/util.go:15-27 | `structToValues` yields the entries and the panic of the specification |
| Encoding.StructValuesOfMap | app/APVE/pkg/common/requests/util.go:19-22 | a map argument gives each key one printed value and never panics |
| Encoding.PointerIsFollowed | app/APVE/pkg/common/requests/util.go:38 | a struct pointer flattens as the struct |
| Encoding.NonStructPanics | app/APVE/pkg/common/requests/util.go:38-43 | a value that is not a struct after one dereference adds nothing and panics: with the zero-value error exactly for a nil value, else with "only support struct or struct pointer" |
| Encoding.Pairs | app/APVE/pkg/common/requests/util.go:51-56 | one pair per named leaf: its key and printed value |
| Encoding.PairsAppend | app/APVE/pkg/common/requests/util.go:51-56 | the pairs of concatenated leaves are concatenated |
| Encoding.FlattenIsLeaves | app/APVE/pkg/common/requests/util.go:37-58 | flattening panics exactly when a value on the embedding path is not a struct; otherwise it adds one pair per named leaf field, in declaration order, with no prefix |
| Encoding.FieldIsLeaves | app/APVE/pkg/common/requests/util.go:45-56 | the same for one field |
| Encoding.LeavesSplit | app/APVE/pkg/common/requests/util.go:44 | the leaves of all fields are those of the first n followed by those of the rest |
| Encoding.FlattenableSplit | app/APVE/pkg/common/requests/util.go:44 | all fields are accepted exactly when the first n and the rest are |
| Encoding.FieldsAreLeaves | app/APVE/pkg/common/requests/util.go:44-57 | the loop over n fields panics exactly when one of them is rejected; otherwise it yields their leaves' pairs |
| Encoding.FieldsStepLeaves | app/APVE/pkg/common/requests/util.go:44-57 | the inductive step of that |
| Encoding.UserVipExamplePairs | app/APVE/pkg/common/requests/util.go:46-50 | an embedded struct that embeds another yields `is_vip` and then `offset` |
| Encoding.QueryExamplePairs | app/APVE/pkg/common/requests/util.go:37-58 | the three-level example yields `id, name, is_vip, offset` in order |
| Encoding.EmbeddedExample | app/APVE/pkg/common/requests/util.go:15-27 | `structToValues` of the example gives `id=1, name=golang, is_vip=true, offset=0` |
| Encoding.RepeatedNameAccumulates | app/APVE/pkg/common/requests/util.go:56 | a name repeated across embedded structs accumulates its values in declaration order |
| Encoding.AddAllSnoc | app/APVE/pkg/common/requests/util.go:56 | adding one more pair is one more `Add` |
| Encoding.AddFresh | app/APVE/pkg/common/requests/util.go:56 | `Add` of a new key is `Set` |
| Options.SetHeaderIn | app/APVE/pkg/common/requests/option.go:42-47 | `setHeader` creates a nil map and writes only key `k` |
| Options.DialOptions.constructor | app/APVE/pkg/common/requests/requests.go:78 | the record holds the given snapshot (the zero record, or the receiver's copy) |
| Options.DialOptions.SetHeader | app/APVE/pkg/common/requests/option.go:42-47 | only the headers change, as `SetHeaderIn` says |
| Options.DialOptions.SetContentType | app/APVE/pkg/common/requests/option.go:38-40 | only `Content-Type` is set |
| Options.DialOptions.SetMarshalled | app/APVE/pkg/common/requests/option.go:91-113 | a marshal error is recorded and nothing else changes; otherwise body and content type are set |
| Options.DialOptions.SetFile | app/APVE/pkg/common/requests/option.go:123-156 | a multipart failure records its error; success sets body and the form content type |
| Options.DialOptions.ApplyEncoded | app/APVE/pkg/common/requests/option.go:67-89 | `WithParam`, `WithQuery` and `WithForm` change the record as `Step` says and panic as `Panics` says |
| Options.DialOptions.Apply | app/APVE/pkg/common/requests/option.go:49-214 | running any option changes the record as `Step` says and panics only as `Panics` says |
| Options.DialOptions.ApplySetting | app/APVE/pkg/common/requests/option.go:53-65 | the field-setting and middleware-appending options change the record as `Step` says |
| Options.DialOptions.ApplyEach | app/APVE/pkg/common/requests/requests.go:79-81 | the option loop gives the specification `ApplyAll`: every option in order until one panics |
| Options.ApplyAllStops | app/APVE/pkg/common/requests/requests.go:79-81 | after a panic, later options change nothing |
| Options.StepError | app/APVE/pkg/common/requests/option.go:91-156 | no option clears `err`; a failing option overwrites it with its own error |
| Options.LastFailure | app/APVE/pkg/common/requests/option.go:91-156 | with an error already recorded, some error is always reported |
| Options.ApplyAllError | app/APVE/pkg/common/requests/requests.go:79-81 | over options that did not panic, the recorded error is the last failing option's, or the old one |
| Options.StepMiddles | app/APVE/pkg/common/requests/option.go:53-57 | `WithMiddleware`, `WithCookies` and `WithHeaders` append; no other option touches the list |
| Options.ApplyAllMiddles | app/APVE/pkg/common/requests/option.go:53-57 | after a list of options, the middlewares are the old ones followed by each option's, in order |
| Options.StepFrame | app/APVE/pkg/common/requests/option.go:49-214 | every option leaves the fields it does not write unchanged; no option writes `cookies` |
| Options.BodyOptionFrame | app/APVE/pkg/common/requests/option.go:83-156 | the body-setting options write at most `err`, `body` and `headers` |
| Options.MarshalOutcome | app/APVE/pkg/common/requests/option.go:91-113 | a failed JSON/XML marshal only records the error; a successful one sets the bytes as body and the right content type, keeping `err` |
| Options.FormSetsBody | app/APVE/pkg/common/requests/option.go:83-89 | a form becomes the encoded body with the form content type; other headers stay |
| Options.ClientChoice | app/APVE/pkg/common/requests/option.go:161-169 | `WithClient` takes the first client, or the default one when given none |
| Options.RetryReplaces | app/APVE/pkg/common/requests/option.go:188-198 | no argument installs the default retry; a later `WithRetry` replaces an earlier one |
| Options.LastQueryWins | app/APVE/pkg/common/requests/option.go:67-81 | of two query options the second wins |
| Options.QueryOfScalarPanics | app/APVE/pkg/common/requests/util.go:41-43 | `WithQuery` of a scalar (or a pointer to one) panics and sets nothing |
| Options.ApplyAllSession | app/APVE/pkg/common/requests/option.go:180-184 | the session flag is the last `WithSession`'s, if any |
| Options.ApplyAllAppend | app/APVE/pkg/common/requests/requests.go:79-81 | applying two lists one after the other is applying their concatenation |
| Requests.ExecRecovers | app/APVE/pkg/common/requests/requests.go:192-205 | a panic in `client.Do` comes back as an error with no response: the panic's string, the panic's error, or "unknown panic" |
| Requests.ExecResult | app/APVE/pkg/common/requests/requests.go:211-218 | a done context makes `exec` return `(nil, ctx.Err())`; otherwise it returns what `client.Do` returned |
| Requests.FullURL | app/APVE/pkg/common/requests/requests.go:141-143 | a non-empty query is appended after `?`; an empty one leaves the URL alone |
| Requests.ClientFromCandidates | app/APVE/pkg/common/requests/requests.go:131-134 | after the options, the client is the stored one or one a `WithClient` picked |
| Requests.Client.constructor | app/APVE/pkg/common/requests/requests.go:78 | a new client holds the zero record |
| Requests.Client.Do | app/APVE/pkg/common/requests/requests.go:131-184 | the stored record's fields never change (value receiver; the header map and body reader the copy shares are values here, see Left out); a panicking option ends the call with no reply; otherwise reply, error and the client's jar, with the cookies responses stored in it, are those of `Dispatch`; no other client's jar changes |
| Requests.Send | app/APVE/pkg/common/requests/requests.go:136-152 | the recorded error, then the request error, then running the chain, as `Dispatch` says |
| Requests.Run | app/APVE/pkg/common/requests/requests.go:154-183 | headers, default client, jar cleared outside session mode, logger first in debug mode, retry last, and the wrapped result of the chain, as `Launch` says |
| Requests.New | app/APVE/pkg/common/requests/requests.go:77-83 | a client exists exactly when no option panicked, and holds the options applied to the zero record |
| Requests.Session | app/APVE/pkg/common/requests/requests.go:86-89 | `New` with `WithSession(true)` last: a fresh client exactly when no option panicked, holding the options applied to the zero record, in session mode |
| Requests.SessionWins | app/APVE/pkg/common/requests/requests.go:86-89 | `WithSession(true)` appended last turns session mode on, whatever came before |
| Requests.ErrorShortCircuits | app/APVE/pkg/common/requests/requests.go:136-139 | a recorded option error is returned before any request is built or any handler runs, and the jar is untouched |
| Requests.RepliesOnceBuilt | app/APVE/pkg/common/requests/requests.go:180-183 | once the request is built, the call always returns a wrapper, error or not |
| Requests.ChainLayout | app/APVE/pkg/common/requests/requests.go:171-180 | the layers are the logger (debug mode), then the caller's, then retry innermost |
| Requests.ChainFrom | app/APVE/pkg/common/requests/requests.go:171-180 | without cookie options the chain has no cookie layer, and without caller middlewares no caller layer |
| Requests.SentAsBuilt | app/APVE/pkg/common/requests/requests.go:141-180 | with the library's layers, every terminal call gets the method, the URL with its query, the body and the trace `do` built |
| Requests.JarsFromStart | app/APVE/pkg/common/requests/requests.go:166-180 | with the library's layers and no cookie options, the client's jar afterwards and every jar sent extend the jar the chain started with: the client's in session mode, none otherwise |
| Requests.NoSessionNoJar | app/APVE/pkg/common/requests/requests.go:166-169 | outside session mode, with the library's layers and no cookie options, no terminal call carries a jar and the client ends without one |
| Requests.SessionKeepsCookies | app/APVE/pkg/common/requests/requests.go:166-169 | in session mode a second call sends every request with a jar extending what the first call left, so it sees every cookie the first call stored |
| Requests.SessionStoresCookies | app/APVE/pkg/common/requests/requests.go:166-180 | a session call with no middlewares sends the built request once, and the client's jar then holds the cookies its response set, filed under the URL |
| Types.HttpClient.constructor | app/APVE/pkg/common/requests/requests.go:160-162 | a client holding the given jar |
| Responses.ReadAt | app/APVE/pkg/common/requests/response.go:55-76 | one read returns the next at most `max` bytes of the body; a closed body returns nothing and an error; a read that returns no error returned bytes |
| Responses.Body.constructor | app/APVE/pkg/common/requests/response.go:11-13 | a fresh body reads from the start and is open |
| Responses.Body.Read | app/APVE/pkg/common/requests/response.go:65 | a read returns `ReadAt` and advances the position |
| Responses.Body.Close | app/APVE/pkg/common/requests/response.go:15-17 | the body is closed afterwards |
| Responses.ReadAll | app/APVE/pkg/common/requests/response.go:39-42 | `ioutil.ReadAll` returns what `ReadAllFrom` says: everything up to `io.EOF`, or the bytes read and the error |
| Responses.Chars | app/APVE/pkg/common/requests/response.go:45-51 | `string(buf)`: one character per byte, same code |
| Responses.BytesOfChars | app/APVE/pkg/common/requests/response.go:45-51 | converting back gives the bytes |
| Responses.Response.constructor | app/APVE/pkg/common/requests/response.go:11-13 | the wrapper's body is the response's, unread and open |
| Responses.Response.Close | app/APVE/pkg/common/requests/response.go:15-17 | closes the body |
| Responses.Response.Content | app/APVE/pkg/common/requests/response.go:39-42 | reads the whole body and closes it |
| Responses.Response.Text | app/APVE/pkg/common/requests/response.go:45-51 | the error of `Content`, else the bytes as a string; `""` on error |
| Responses.Response.Decode | app/APVE/pkg/common/requests/response.go:78-81 | `withClose`: the decoder's error, and the body closed |
| Responses.Response.JSON | app/APVE/pkg/common/requests/response.go:25-29 | the JSON decoder's error on the body, which is then closed |
| Responses.Response.XML | app/APVE/pkg/common/requests/response.go:32-36 | the XML decoder's error on the body, which is then closed |
| Responses.Response.Raw | app/APVE/pkg/common/requests/response.go:55-76 | the chunks sent are `RawChunks`, and the body is closed |
| Responses.Response.RawFixed | app/APVE/pkg/common/requests/response.go:55-76 | the corrected loop sends `RawChunksFixed` and closes the body |
| Responses.ChunksStep | app/APVE/pkg/common/requests/response.go:64-73 | one read of the loop: the chunk it sends, then the chunks of the rest |
| Responses.ReadChunks | app/APVE/pkg/common/requests/response.go:64-73 | the read loop sends `RawChunks`, or `RawChunksFixed` when keeping the final read |
| Responses.RawChunksBounded | app/APVE/pkg/common/requests/response.go:57 | every chunk sent is at most 1 MiB, and non-empty for the fixed-size reader `ReadAt` models |
| Responses.RawFixedDeliversAll | app/APVE/pkg/common/requests/response.go:55-76 | the corrected `Raw` sends exactly the bytes `Content` reads |
| Responses.RawChunksCons | app/APVE/pkg/common/requests/response.go:65-72 | a read without error sends its bytes and the loop goes on from the next position |
| Responses.RawChunksEnd | app/APVE/pkg/common/requests/response.go:65-71 | a read with `io.EOF` or an error ends the loop with nothing more sent; without data alongside the end, that happens only at the end of the body |
| Responses.RawDeliversPrefix | app/APVE/pkg/common/requests/response.go:55-76 | as written, `Raw` sends a prefix of the body, and all of it when the end of the stream comes in a read of its own |
| Responses.RawDropsFinalRead | app/APVE/pkg/common/requests/response.go:65-71 | a body whose last bytes arrive with `io.EOF` sends nothing through `Raw`, while `Content` reads them all |
| Strs.LowerIdempotent | app/APVE/pkg/core/fingerscan/web.go:91 | lower-casing twice is lower-casing once |
| Strs.ContainsFromAt | app/APVE/pkg/core/fingerscan/web.go:86 | the recursive search finds `t` exactly when it occurs at some index from `from` on |
| Strs.ContainsAt | app/APVE/pkg/core/fingerscan/web.go:86 | `strings.Contains` holds exactly when `t` occurs at some index |
| Strs.ContainsEmpty | app/APVE/pkg/core/fingerscan/web.go:91 | the empty string occurs everywhere |
| Strs.ContainsInfix | app/APVE/pkg/core/fingerscan/web.go:86 | a string occurs where it is written |
| Strs.ContainsPiece | app/APVE/pkg/core/fingerscan/web.go:132-135 | what holds a string holds each of its pieces |
| Strs.IndexOf | app/APVE/pkg/core/fingerscan/web.go:139 | the first occurrence from a position, or none at all |
| Strs.IndexOfFinds | app/APVE/pkg/core/fingerscan/web.go:139 | finding an occurrence is `Contains` |
| Strs.Split | app/APVE/pkg/core/fingerscan/web.go:139 | `strings.Split` with a non-empty separator yields at least one part |
| Strs.SplitJoin | app/APVE/pkg/core/fingerscan/web.go:139 | joining the parts with the separator gives the string back |
| Strs.SplitPartsFree | app/APVE/pkg/core/fingerscan/web.go:139 | no part contains the separator |
| Strs.SplitWithoutSep | app/APVE/pkg/core/fingerscan/web.go:163-166 | a string without the separator is its only part |
| Strs.SplitWithSep | app/APVE/pkg/core/fingerscan/web.go:151-158 | a string with the separator has at least two parts |
| Strs.LineOf | app/APVE/pkg/core/fingerscan/web.go:87 | the text before the first newline, which `.` cannot cross |
| Strs.LastIndex | app/APVE/pkg/core/fingerscan/web.go:87 | the last index of a character, where greedy `.*` ends |
| Strs.MatchAt | app/APVE/pkg/core/fingerscan/web.go:87 | a match at a position ends at a closing character past the opening text |
| Strs.FirstMatch | app/APVE/pkg/core/fingerscan/web.go:88 | the leftmost match from a position |
| Strs.Matches | app/APVE/pkg/core/fingerscan/web.go:172 | every match of `FindAllStringSubmatch` lies within the string, in order |
| Strs.CaptureSound | app/APVE/pkg/core/fingerscan/web.go:87-90 | a captured group is written between the opening text and the closing character, with no newline |
| Strs.MatchAtShape | app/APVE/pkg/core/fingerscan/web.go:87 | a match spells the opening text, a newline-free group and the closing character |
| Strs.FirstMatchAt | app/APVE/pkg/core/fingerscan/web.go:88 | the first match is the one found at its start |
| Strs.CaptureClause | app/APVE/pkg/core/fingerscan/web.go:87-90 | a one-line clause `open t close` captures exactly `t` |
| Strs.LineOfWhole | app/APVE/pkg/core/fingerscan/web.go:87 | a string with no newline is its own first line |
| FingerScan.ClauseOfRule | app/APVE/pkg/core/fingerscan/web.go:86-90 | the rule `name="t"` yields the clause text `t` |
| FingerScan.TitleRuleMatches | app/APVE/pkg/core/fingerscan/web.go:86-95 | `title="t"` matches every page whose title contains `t`, ignoring case |
| FingerScan.BodyRuleMatches | app/APVE/pkg/core/fingerscan/web.go:97-106 | `body="t"` matches every page whose body contains `t`, ignoring case |
| FingerScan.HeaderRuleMatches | app/APVE/pkg/core/fingerscan/web.go:108-121 | `header="t"` matches when any value of any header contains `t`, ignoring case |
| FingerScan.EmptyClauseMatchesAll | app/APVE/pkg/core/fingerscan/web.go:86-106 | an empty title or body clause matches every page |
| FingerScan.EmptyTitleMatchesAll | app/APVE/pkg/core/fingerscan/web.go:86-95 | `title=""` matches every page |
| FingerScan.NoQuotedClauseNoMatch | app/APVE/pkg/core/fingerscan/web.go:85-123 | a rule without `="` matches nothing |
| FingerScan.ClauseQuoted | app/APVE/pkg/core/fingerscan/web.go:87-89 | a clause is only found after `="` |
| Types.Repeat | app/APVE/pkg/core/fingerscan/web.go:141 | n appends of one name (also n identical sends of the retry layer) |
| Types.RepeatAdd | app/APVE/pkg/core/fingerscan/web.go:141 | a appends then b appends are a + b appends |
| FingerScan.HitsBound | app/APVE/pkg/core/fingerscan/web.go:151-155 | the counter of matching rules never exceeds the number of rules |
| FingerScan.AllRulesHit | app/APVE/pkg/core/fingerscan/web.go:151-157 | when every rule matches, the counter equals the number of rules |
| FingerScan.FullCountAllHit | app/APVE/pkg/core/fingerscan/web.go:151-157 | when the counter equals the number of rules, every rule matches |
| FingerScan.HitsAll | app/APVE/pkg/core/fingerscan/web.go:151-157 | the counter reaches the number of rules exactly when every rule matches |
| FingerScan.HitsAgree | app/APVE/pkg/core/fingerscan/web.go:182-188 | pages that every rule judges alike get the same count |
| FingerScan.Bracket | app/APVE/pkg/core/fingerscan/web.go:171-175 | the single bracketed group lies inside the key |
| FingerScan.OrKeyOnce | app/APVE/pkg/core/fingerscan/web.go:138-145 | an `a||b` key appends the name at most once, and does so exactly when some alternative matches |
| FingerScan.AndKeyAll | app/APVE/pkg/core/fingerscan/web.go:148-160 | an `a&&b` key appends the name at most once, and does so exactly when every conjunct matches |
| FingerScan.PlainKey | app/APVE/pkg/core/fingerscan/web.go:163-167 | a key with no operator and no bracket appends the name exactly when `checkRule` accepts it |
| FingerScan.UnhandledKeys | app/APVE/pkg/core/fingerscan/web.go:132-170 | these keys never append: both operators without a bracket, `()`, or a bracket with fewer than both operators |
| FingerScan.AndBracketIgnoresAlternatives | app/APVE/pkg/core/fingerscan/web.go:177-194 | in `a||b||(c&&d)` only the bracketed conjuncts decide; the plain alternatives are never checked |
| FingerScan.FullAboveTwo | app/APVE/pkg/core/fingerscan/web.go:198-217 | a part's counter is at most 2 |
| FingerScan.OrBracketNeedsTwoParts | app/APVE/pkg/core/fingerscan/web.go:196-217 | as written, `a&&b&&(c||d)` with three or more `&&`-parts never appends its name |
| FingerScan.BracketCountSplits | app/APVE/pkg/core/fingerscan/web.go:170-219 | the bracket case counts the `&&`-bracket and the `||`-bracket sub-cases, each when its operator is in the group |
| FingerScan.JoinPath | app/APVE/pkg/core/fingerscan/web.go:224-230 | the corrected probe URL exists exactly when the page URL is non-empty; it is the page URL, one `/` and the path |
| FingerScan.JoinPathDropsBase | app/APVE/pkg/core/fingerscan/web.go:224-230 | as written, a page URL ending in `/` is dropped and only the path is probed |
| FingerScan.JoinPathExample | app/APVE/pkg/core/fingerscan/web.go:224-230 | `http://host/` with `favicon.ico` probes `favicon.ico` as written and `http://host/favicon.ico` as corrected |
| FingerScan.JoinPathAgrees | app/APVE/pkg/core/fingerscan/web.go:224-230 | without a trailing `/` the two joins agree |
| FingerScan.HashesShape | app/APVE/pkg/core/fingerscan/web.go:222-253 | the probes add only their fingerprint's name; a fetch error gives empty results with the error; the index panic needs an empty page URL |
| FingerScan.ScanShape | app/APVE/pkg/core/fingerscan/web.go:125-256 | a successful scan reports the page URL and only names of fingerprints, after those found before; a failure gives empty results and its error |
| FingerScan.NoProbesNoFailure | app/APVE/pkg/core/fingerscan/web.go:125-256 | with no probe paths, identification succeeds on every page |
| FingerScan.CountHits | app/APVE/pkg/core/fingerscan/web.go:151-155 | the counter loop returns the number of matching rules |
| FingerScan.AnyRuleHits | app/APVE/pkg/core/fingerscan/web.go:139-144 | the loop that stops at the first matching rule returns whether one matches |
| FingerScan.OrKey | app/APVE/pkg/core/fingerscan/web.go:138-145 | the OR branch appends `OrCount` copies of the name |
| FingerScan.AndKey | app/APVE/pkg/core/fingerscan/web.go:148-160 | the AND branch appends `AndCount` copies of the name |
| FingerScan.AndBracket | app/APVE/pkg/core/fingerscan/web.go:177-194 | the `||`-with-`&&`-bracket branch appends its count of names |
| FingerScan.OrBracket | app/APVE/pkg/core/fingerscan/web.go:196-217 | the `&&`-with-`||`-bracket branch appends its count of names |
| FingerScan.PartCounter | app/APVE/pkg/core/fingerscan/web.go:199-212 | one part's counter: 1 for the bracket alternatives, plus 1 for the part |
| FingerScan.BracketKey | app/APVE/pkg/core/fingerscan/web.go:170-219 | the bracket branch appends `BracketCount` copies of the name |
| FingerScan.KeyPrints | app/APVE/pkg/core/fingerscan/web.go:132-219 | the four key branches of one fingerprint append `KeyCount` copies of its name |
| FingerScan.HashPrints | app/APVE/pkg/core/fingerscan/web.go:222-253 | the probe loop of one fingerprint does what `Hashes` says, with the corrected probe URL join |
| FingerScan.IdentifyResponse | app/APVE/pkg/core/fingerscan/web.go:125-256 | `identifyResponse` returns `Identify`: every fingerprint's key, then its probes, in file order |
| FingerScan.NormalizeCharset | app/APVE/pkg/core/fingerscan/web.go:322-327 | the charset becomes `GBK` or `utf-8` |
| FingerScan.NormalizeCharsetNames | app/APVE/pkg/core/fingerscan/web.go:322-327 | `GBK` exactly when the lower-cased charset is gb2312, big5, gb18030 or gbk |
| FingerScan.NormalizeCharsetStable | app/APVE/pkg/core/fingerscan/web.go:322-327 | case does not matter, and normalising twice changes nothing |
| Protocols.Registry.constructor | app/APVE/pkg/protocols/protocols.go:3 | the registry starts empty |
| Protocols.Registry.AddPocObj | app/APVE/pkg/protocols/protocols.go:10-12 | registering appends the PoC last and keeps the earlier ones |
| Protocols.RegisteredTwice | app/APVE/pkg/protocols/protocols.go:10-12 | two `AddPocObj` calls with one PoC append it twice: the registry does not drop duplicates |
| VulScan.ElementIsInSlice | app/APVE/pkg/protocols/vulscan/pocExec.go:18-26 | true exactly when some element equals the given one after lower-casing both |
| VulScan.InSingleton | app/APVE/pkg/protocols/vulscan/pocExec.go:31 | membership in a one-element slice is equality ignoring case |
| VulScan.MatchingIsSubsequence | app/APVE/pkg/protocols/vulscan/pocExec.go:28-36 | the filtered PoCs are a subsequence of the registered ones, in order |
| VulScan.SubsequenceOfPrefix | app/APVE/pkg/protocols/vulscan/pocExec.go:30 | a subsequence stays one when the list grows |
| VulScan.MatchingMembers | app/APVE/pkg/protocols/vulscan/pocExec.go:28-36 | a PoC is kept exactly when it is registered and its `finger` equals the fingerprint ignoring case |
| VulScan.MatchingAppend | app/APVE/pkg/protocols/vulscan/pocExec.go:28-36 | filtering a concatenation concatenates the filtered parts |
| VulScan.MatchingIgnoresCase | app/APVE/pkg/protocols/vulscan/pocExec.go:31 | the fingerprint's case does not matter |
| VulScan.RegisteredLast | app/APVE/pkg/protocols/vulscan/pocExec.go:31-33 | a newly registered PoC is kept last when it matches; one without `finger` is never kept for a non-empty fingerprint |
| VulScan.PocManage.constructor | app/APVE/pkg/protocols/vulscan/pocExec.go:39 | a new manager holds no PoCs |
| VulScan.PocManage.GetAttackPocObj | app/APVE/pkg/protocols/vulscan/pocExec.go:13-15 | the manager's PoCs are replaced by the given ones |
| VulScan.PocManage.FingerMatch | app/APVE/pkg/protocols/vulscan/pocExec.go:28-36 | the loop returns `Matching` of the manager's PoCs |
| VulScan.GetPocManage | app/APVE/pkg/protocols/vulscan/pocExec.go:38-40 | a fresh, empty manager, which matches nothing for any fingerprint |

## Left out

- I/O and concurrency. `exec`'s goroutine, its channel, and the race between the context and `client.Do` are not modelled; whether the context is done is an oracle on the call number. `Raw`'s channel, goroutine and reused buffer are left out too: the chunks are returned as a sequence, each a copy.
- The network. `http.NewRequestWithContext`, `client.Do`, timers, `httptrace` and `context` are oracles in `Requests.Net` and `Middleware.Env`. `newHTTPClient` is the oracle `fetch` in `FingerScan.Web`, and md5 is the oracle `md5Hex`.
- Page fetching. `newHTTPClient`'s transport set-up and the regular expressions that extract the title and the charset are outside the model; so is the `mahonia` decoding, beyond the charset switch. `sendRequest`, `initFingerprintFile` and `WebMain` of the fingerprint scanner are not part of this model.
- Encoders. `url.Values.Encode`, `fmt.Sprint`, `json.Marshal`, `xml.Marshal`, and the multipart body `WithFile` builds from `os.Open` are oracles in `Options.Platform`. `WithFile` with a nil `*File` (a nil dereference) is not modelled.
- Decoders. How much of the body the JSON and XML decoders read is the decoder oracle's business: the model hands it everything the body holds.
- Logging. `loggerMiddleware`'s dumps, `backoff`'s progress print and `exec`'s `log.Printf` of a recovered panic are not modelled; the logger layer only records that it ran.
- Responses.ReadAt: models a reader that always returns `min(len(buf), remaining)` bytes. Go's `io.Reader` may also return fewer bytes, or `(0, nil)`, and a network body delivers chunks of any size. So the model does not capture `Raw` sending an empty `buf[:0]` after a `(0, nil)` read. The "non-empty" half of `Responses.RawChunksBounded` depends on this read-size choice. The 1 MiB bound, `Responses.RawDeliversPrefix` and `Responses.RawFixedDeliversAll` do not depend on it.
- Case folding. `strings.ToLower` is modelled on ASCII letters only (`Strs.LowerChar`); other Unicode letters keep their case.
- Regular expressions. Go's `regexp` engine is replaced by a hand-written matcher for the three patterns the matcher uses (`Strs.Capture`, `Strs.Matches`). These are `<name>="(.*)"` and `\((.*)\)`: greedy `.*`, and no `\n` inside a match.
- Integer widths. `time.Duration` (int64) overflow in `min + attempt*min` is not modelled: durations are unbounded integers.
- Small getters and wrappers. The `Response()` getter, the package-level `Get`/`Post`/… wrappers around the default client, and the per-verb methods of `Client` are not modelled. They all call `do` with a fixed method name, which `Requests.Client.Do` takes as a parameter.
- Unread state. The `cookies` field of `dialOptions` is never read or written by the source; the model keeps it and proves no option writes it.
- Nil values. A nil `*http.Response` inside `Response` (reading it would be a nil dereference) is not modelled.
- Requests.Client.Do: per-call options run on a copy of `dialOptions`, but the copy shares two things with the stored record, and the model treats both as values. The first is the header map: once it is non-nil, `setHeader` on the copy writes into the stored client's map, so a per-call `WithJSON` stays in the client (option.go:42-47). The second is the body reader (`bytes.NewBuffer`), which the first send drains, so a later call with the stored body sends it empty.
- Middleware.RetryResendsSameRequest: the body is a value, so every resend carries it; in Go each attempt reuses one drained `*bytes.Buffer`.
- Middleware.JarOnlyGrows, Middleware.TargetUntouched, Requests.SentAsBuilt, Requests.JarsFromStart, Requests.NoSessionNoJar, Requests.SessionKeepsCookies: proved for chains of the library's own layers. `WithMiddleware` layers are the oracle `custom` of `Middleware.Env`, which may change the request and the jar and call `next` any number of times.
- Map iteration order. The order in which `range` visits a Go map is the oracle `order` of `Middleware.Env` and `Requests.Net`; `Headers.OverwriteSpec` takes it to visit each key once. When two keys of one map name the same header, which value wins depends on that order.
- Cookie storage. What `http.Client` stores is the oracle of the cookies each call's responses set (`Requests.ClientDo.setCookies`); the jar keeps them as batches per URL, and domain, path and expiry matching are not modelled. A panicking `client.Do` is taken to store none.
- Encoding.StructToValues: map keys are taken to be strings. For a `WithQuery` map with other keys, `key.String()` gives `<int Value>` and the like, so every entry lands under that one name.
- Retry.NewRetry: a nil `Retry` (`WithRetry(nil)`) is not modelled; `newRetry` would panic calling a method on the nil interface.
- FingerScan.HashPrints, FingerScan.Hashes: they use the corrected probe URL join `FingerScan.JoinPath` (see Findings), not the one as written.
- PoC execution. `PocExec` of a registered PoC runs exploit code outside the core and is left out; a PoC is seen only through `GetPocInfo()`.
- Strs.Split: only a non-empty separator is modelled, since every caller passes the constant `||` or `&&`.
- FingerScan.IdentifyResponse: the model uses the corrected probe URL join (see Findings). The as-written join is modelled and compared by `FingerScan.JoinPathAsWritten`, `JoinPathDropsBase` and `JoinPathAgrees`. The index panic on an empty page URL is kept.
- Responses.Response.Raw: the contract gives the chunks as a sequence and says nothing about when each is received; the corrected loop `Responses.Response.RawFixed` is what `Raw`'s comment promises.

## Findings

| source | as written | input that shows it | evidently intended | confidence | as-written member | corrected member |
|---|---|---|---|---|---|---|
| app/APVE/pkg/common/requests/response.go:65-71 | `Raw` returns on `io.EOF` without sending the bytes that read returned | a body `[1,2,3]` whose one read returns the three bytes together with `io.EOF`, as `net/http` bodies of known length may: `Raw` sends nothing, `Content` reads `[1,2,3]` | send `buf[:n]` before stopping, so that `Raw` delivers what `Content` reads | not executed | Responses.RawDropsFinalRead | Responses.RawFixedDeliversAll |
| app/APVE/pkg/core/fingerscan/web.go:224-230 | `url` receives the page URL only when that URL does not end in `/`; otherwise it stays empty, and the probe fetches the bare path | page URL `http://host/` with probe path `favicon.ico`: the probe fetches `favicon.ico` | the page URL, then `/` when it does not already end in one, then the path | not executed | FingerScan.JoinPathDropsBase | FingerScan.JoinPath |

One more behaviour of the code, proved as written but not corrected because the intent is not evident: in the bracket case `a&&b&&(c||d)` (web.go:196-217), each `&&`-part's counter is at most 2 but must reach the number of parts. So a key with three or more `&&`-parts never appends its name (`FingerScan.OrBracketNeedsTwoParts`).
