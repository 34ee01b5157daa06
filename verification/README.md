# webhook2matrix: configuration store and webhook relay, in Dafny

webhook2matrix relays webhook calls into a Matrix room. This project models
its two pieces of real logic as pure Dafny functions and proves properties
about them:

- **Configuration** (`src/config.ts`). The JSON schema of the configuration
  file is written as a validity predicate over parsed JSON (`ConfigSchema`).
  The keywords it uses follow JSON Schema draft-07: `required`, `properties`,
  `additionalProperties: false` and `oneOf` (sections 6.5.6 and 6.7.3 of the
  JSON Schema Validation specification, draft-07),
  `integer` with `minimum` and `maximum`. The predicate sits beside a typed
  `ConfigObject`, and the two are linked by `Encode`/`Decode` round trips.
  The default configuration is proved valid. Loading first writes the
  default when the file is missing, then parses and validates the file. If
  the file is invalid, loading retries with the shallow merge
  `{...defaultConfig, ...parsed}`, and rewrites the file when the merge is
  valid. `Migration` models the merge with JavaScript's spread rules:
  objects contribute their properties, arrays and strings contribute their
  indices, and `null`, booleans and numbers contribute nothing. The store
  (`ConfigStore`) is a record that `Load`, `Get`, `WriteConfig` and `Set`
  transform over an abstract disk, and the disk records every write.
- **One request** (`src/api.ts`). `Api.Handle` maps a store and a request to
  what the request does: the chat messages it sends, which are recorded and
  not performed, and the HTTP status and body it answers with. Inside
  `Handle`, the token check (the first key whose `key` equals the path
  token) comes before the Authentik payload schema. A valid payload sends
  `[webhook2matrix/<name>] [<severity>]: <body>` to the configured room.

Modules: `Wrappers` (Option/Result/Outcome), `Json` (values and decimal
index keys), `ConfigSchema`, `Migration`, `ConfigStore`, `Api`.

Three behaviours of the code that a reader might not expect are modelled as written:

- `set` does not validate. `ConfigStore.SetUncheckedBreaksReload` shows what
  follows: after setting an out-of-range port, the next load of that file
  fails.
- An absent severity is rendered as the literal `undefined`.
- An empty path is refused. Node's `existsSync("")` is false and
  `writeFileSync("")` throws, so such a load fails (`IoError`).
  `writeConfig`'s guard also rejects an empty path.

## Model

| member | source | states |
|---|---|---|
| Json.DecimalRoundTrip | src/config.ts:144-147 | the decimal property key of an array or string index reads back as that index, so spread index keys are distinct |
| ConfigSchema.MatrixSchemaAgreesWithDecode | src/config.ts:45-69 | the `matrix` subschema accepts exactly the objects that read as one of the two credential forms, and such an object is the encoding of what it reads as |
| ConfigSchema.ApiKeysSchemaAgreesWithDecode | src/config.ts:71-86 | an `apiKeys` array satisfies its subschema exactly when every item reads as a `{name, key}` record, and the items are the encodings of those records |
| ConfigSchema.SchemaAgreesWithDecode | src/config.ts:42-98 | the whole schema accepts exactly the JSON values that read as a configuration object |
| ConfigSchema.EncodeDecode | src/config.ts:33-38 | a value that reads as a configuration object is that object's encoding, and its port is in range |
| ConfigSchema.DecodeEncode | src/config.ts:33-38 | a configuration object with its port in range reads back from its encoding unchanged |
| ConfigSchema.EncodingValidIffWellFormed | src/config.ts:90-94 | an encoded configuration object satisfies the schema exactly when its port lies in 1024..65535 |
| ConfigSchema.DefaultIsValid | src/config.ts:102-112 | the default configuration satisfies the schema and has the password credential, no API keys, host 0.0.0.0 and port 9456 |
| ConfigSchema.TopLevelKeysExact | src/config.ts:96-97 | a valid configuration has exactly the keys matrix, apiKeys, listenHost and listenPort; removing one or adding any other key makes it invalid |
| ConfigSchema.ListenPortCriterion | src/config.ts:90-94 | all else valid, a configuration is valid exactly when listenPort is an integral number with 1024 <= port <= 65535 |
| ConfigSchema.MatrixCriterion | src/config.ts:45-69 | `matrix` is valid exactly when it is an object of strings with baseUrl, userId and roomId, no other keys but the credentials, and exactly one of accessToken and password (both or neither is invalid) |
| ConfigSchema.ApiKeyCriterion | src/config.ts:71-86 | an apiKeys item is valid exactly when it is `{name, key}` with both strings and nothing else; the empty array is valid |
| Migration.IndexProperties | src/config.ts:144-147 | spreading an array or string gives one property per index, keyed by the index in decimal, holding that element, and no other property |
| Migration.MergeWithDefault | src/config.ts:144-147 | in the merge, every property the parsed value spreads keeps its parsed value, every other default key keeps the default, and no other key appears |
| Migration.MergeKeepsCompleteObject | src/config.ts:143-151 | an object that already has all four top-level keys is unchanged by the merge, so an invalid one stays invalid (a bad nested value or an extra key is never repaired) |
| Migration.MergeOfKeylessValue | src/config.ts:143-151 | null, a boolean, a number, "" and [] merge to exactly the default configuration, which is valid |
| Migration.MergeOfNonEmptySequence | src/config.ts:143-151 | a non-empty string or array merges to an invalid object, because its index key "0" is an additional property |
| Migration.MergeOfObjectValidIff | src/config.ts:143-151 | for an object, the merge is valid exactly when the object has no key outside the four and each key it has holds a value its subschema accepts |
| Migration.MergeRescuesOnlyMissingKeys | src/config.ts:143-151 | if the merge rescues an invalid value, that value is an object missing a top-level key, or a value that spreads no keys |
| ConfigStore.Adopt | src/config.ts:164-166 | adopting a valid value marks the store loaded at the path and holds a well-formed object whose encoding is that value |
| ConfigStore.Load | src/config.ts:126-169 | load outcomes: an empty path fails; a missing file gets the default written and loaded; an unparseable file fails with a parse error; a valid file is held as is with no write; an invalid file whose merge is valid is held as the merge and rewritten with it; otherwise a schema error; every failure leaves the store unchanged |
| ConfigStore.Get | src/config.ts:186-194 | in a consistent store, get succeeds exactly when a load has succeeded, and what it returns is the held configuration |
| ConfigStore.WriteConfig | src/config.ts:171-184 | in a consistent store, writes exactly when loaded; a write puts the held configuration at the recorded path and appends one entry to the write log; otherwise it returns false and the disk is untouched |
| ConfigStore.Set | src/config.ts:196-200 | set always replaces the held configuration and never changes loaded or the path |
| ConfigStore.InitialState | src/config.ts:120-124 | a freshly constructed store is consistent and get on it fails as not loaded |
| ConfigStore.LoadKeepsConsistent | src/config.ts:164-166 | load keeps the invariant that a loaded store holds a configuration and a non-empty path |
| ConfigStore.SetKeepsConsistent | src/config.ts:196-200 | set keeps the same invariant |
| ConfigStore.SetWritesIffLoaded | src/config.ts:171-200 | in a consistent store, set writes exactly when loaded, and then writes the new configuration to the loaded path |
| ConfigStore.SetBeforeLoad | src/config.ts:171-200 | before a successful load, set returns false and writes nothing, and get still fails afterwards |
| ConfigStore.LoadThenGet | src/config.ts:126-194 | after a successful load, get returns a configuration whose JSON is exactly the valid content the file now holds |
| ConfigStore.LoadIdempotent | src/config.ts:126-169 | loading again from the file a successful load left behind gives the same state and writes nothing |
| ConfigStore.SetThenReload | src/config.ts:126-200 | setting a well-formed configuration on a loaded store and loading that file afresh gives back that configuration, with no further write |
| ConfigStore.SetUncheckedBreaksReload | src/config.ts:196-200 | setting a configuration with its port out of range is written anyway, and loading that file afresh fails with a schema error |
| Api.FindKey | src/api.ts:91 | the lookup finds nothing exactly when no record's key equals the token, and otherwise returns the record at the first position whose key equals it |
| Api.FindKeyReturnsFirstMatch | src/api.ts:91 | conversely, whenever some position is the first whose key equals the token, the lookup returns the record at that position |
| Api.DecodeAuthentik | src/api.ts:71 | a payload read as a message supplies its body and severity: body is the payload's string `body`, and a severity exists exactly when the payload has one with that name |
| Api.AuthentikSchemaAgreesWithDecode | src/api.ts:46-63 | the payload schema (object, string body, severity among notice/warning/alert, string user fields, extra keys allowed) accepts exactly the payloads that read as a message |
| Api.MessageTextShape | src/api.ts:77 | the message is tagged with the key's name, its severity segment is one of notice, warning, alert or undefined, and it ends with the body verbatim |
| Api.MessageTextInjective | src/api.ts:77 | for one key name, the message text determines the severity and the body |
| Api.Handle | src/api.ts:65-101 | a request sends at most one message, sends one exactly when it answers 200, and a 200 answer is `{ok: true}` |
| Api.UnauthenticatedIsRefused | src/api.ts:83-96 | an empty token and an unmatched token both get 401 with the text "No token provided", and nothing is sent |
| Api.RequestBeforeLoadFails | src/api.ts:91 | before the configuration is loaded, a request with a token fails with the error page and sends nothing |
| Api.EmptyTokenNeverMatches | src/api.ts:86-89 | the empty token is refused with 401 whatever the keys, including an empty key |
| Api.AuthenticationPrecedesValidation | src/api.ts:83-103 | a request that is validated, sent or routed carried a token that is the key of some configured record |
| Api.InvalidPayloadIsRefused | src/api.ts:66-69 | an authenticated payload that fails the schema gets 400 "Cannot process invalid data" and nothing is sent |
| Api.ValidPayloadIsForwarded | src/api.ts:71-80 | an authenticated valid payload sends exactly one message to the configured room, `[webhook2matrix/` name of the first record whose key matches `] [` severity or `undefined` `]: ` body, then answers `{ok: true}` |
| Api.DiskFullExample | src/api.ts:77 | the key named ops with `{body: "disk full", severity: "alert"}` sends `[webhook2matrix/ops] [alert]: disk full` |
| Api.MissingBodyExample | src/api.ts:62-69 | `{severity: "notice"}` without a body gets 400 and sends nothing |

## Left out

- `src/logging.ts`: log formatting and transports. The log calls in the core have no effect on the model.
- `src/matrix.ts`: client creation, password login and the online message. These are calls into matrix-js-sdk, which is not part of this model. A send is recorded as a `Message` in the request's result.
- `src/index.ts`: command-line parsing and starting the HTTP listener.
- `src/types.d.ts`: the `apiKey` field on a request. `Handle` passes the matched record straight to the handler step.
- `getConfig` (`src/config.ts:203-211`): it always returns the one store. The model passes the store explicitly.
- Ajv itself and its error lists: the two schemas are predicates, and their error lists are only logged.
- File contents are abstracted to their parse result (`Parsed` or `Unparseable`), and a write stores the value. The model leaves out `JSON.stringify` formatting and I/O failures other than an empty path.
- Api.Handle: assumes the send succeeds. The source lets a failed send, or a missing chat client, reject the async handler, and the model does not represent that failure.
- Express body parsing and URL-decoding of the token: the payload arrives as parsed JSON, and the token as a string. `express.json()` (`src/api.ts:31`) runs before the token check, so a body that is not well-formed JSON gets 400 before any token is looked at; Api.AuthenticationPrecedesValidation is about the payload schema step only.
- The framework's 404 and 500 pages are not modelled; both are `DefaultPage`.
- JSON numbers keep only an integer part and an integral flag. Floating-point magnitude, precision and infinities are not modelled.
- Strings are sequences of Unicode scalar values, not UTF-16 code units. The spread index keys of a string with astral characters therefore differ from JavaScript's.
- ConfigStore.Set: takes a typed `ConfigObject`, so values that TypeScript's structural typing lets through are not modelled: a fractional, NaN or infinite port, a `matrix` with both `password` and `accessToken`, or an object with extra properties. Each would be written unchecked and make the next load fail.
- The store holds values, not references. In the code, `get` returns the held object itself, `set` keeps the caller's object, and a migrated configuration shares `defaultConfig.matrix` and `defaultConfig.apiKeys`. Nothing in the core mutates these objects, so this sharing has no observable effect here.
- Concurrency between requests, and `set` racing with `get`.
