# jwctl core, modelled in Dafny

jwctl is the command-line client of the JumpWire proxy. This project models the
parts of it that make decisions, and proves what those decisions guarantee:

- **The list-selection widget** (`src/terminal.rs`). `StatefulList` is a fixed
  list of `(key, label)` pairs with an optional cursor, moved by `next`,
  `previous` and `unselect`. The key dispatch of `run_list_selection` turns each
  key press into a cursor move, a returned pair or an error
  (module `Terminal`). The list is a class with a mutable cursor. One event is a
  pure `Step`, a finite run of events is a pure `Run`, and the loop itself is the
  method `RunListSelection`, proved equal to `Run`.
- **The manifest wizard** (`src/manifests.rs`, module `Manifests`). It covers:
  - the manifest-name parser;
  - the root-type menu;
  - the PostgreSQL and MySQL configuration records, with their in-place Vault update;
  - the 20-character echo of the OpenAPI schema, and the restart on an empty schema;
  - the vault flag;
  - the credentials records, including HTTP Basic credentials. These are the
    base64 (section 4 of RFC 4648) encoding of the UTF-8 (RFC 3629) bytes of
    `username:password` (section 2 of RFC 7617). Modules `Base64` and `Utf8`
    model both encodings, with a decoder and a round-trip proof for base64.
- **The proxy-schema commands** (`src/proxy_schemas.rs`, module `ProxySchemas`):
  - the URL they talk to;
  - the validation of the manifest listing into `id`/`name` maps;
  - the `"<name> (<id>)"` menu and its lookup back to an id;
  - the field-map loop of `prompt_for_fields`.
- **The command line** (`src/main.rs`, module `Cli`): how the global arguments
  become a configuration source, and the log levels they select.

Helper modules:
- `Common`: `Option`, `Result`, `byte`, and two generic helpers. `FirstWhere` is
  the "ask again until accepted" search. `InsertAll` is the hash-map insertion fold.
- `NameRules`: the name parser both wizards share.
- `JsonValues`: JSON values.
- `Urls`: URLs as origin, path and tail.

Every answer to an interactive prompt is an input. A prompt that asks again is
modelled over the finite sequence of answers the operator gives, and the result
is `None` when the answers run out before one is accepted. HTTP responses are
inputs too.

Behaviour of the widget's code worth noting:
- The cursor starts at `Some(0)` even on an empty list (src/terminal.rs:76).
- Enter with no cursor ends the loop with the error "Nothing selected"
  (src/terminal.rs:107-111).
- On an empty list, Enter with the cursor still at its initial `Some(0)` ends with
  "Invalid selection"; with no cursor (after Left) it ends with "Nothing selected".
- On an empty list, Down with any cursor present, and Up with the cursor at 0
  (the initial state), compute `len() - 1` on `0usize`
  (src/terminal.rs:27, 42). That is the panic "attempt to subtract with
  overflow", which the model keeps as the outcome `Panicked`. Up from a larger
  cursor takes the `i - 1` branch and does not panic, but from the initial state
  an empty list only ever has no cursor or a cursor at 0
  (`Terminal.EmptyListCursorAtMostZero`).
- 'q' and Control-c end with the same error as Enter without a cursor. There is
  no separate "cancelled" outcome.
- Nothing in `run_list_selection` restores the terminal, so no release is modelled.

## Model

| member | source | states |
|---|---|---|
| Terminal.NextCursor | src/terminal.rs:24-36 | `next` always leaves a cursor. On a non-empty list it is in bounds, even from a cursor past the end. A present cursor needs a non-empty list, because the code computes `len() - 1`. |
| Terminal.PreviousCursor | src/terminal.rs:38-50 | `previous` always leaves a cursor. On a non-empty list it is in bounds from no cursor or from any cursor up to the length. Only a cursor at 0 needs a non-empty list, because only then does the code compute `len() - 1`. |
| Terminal.StatefulList.WithItems | src/terminal.rs:17-22 | The list keeps the items given and starts with no cursor (the default list state). |
| Terminal.StatefulList.Select | src/terminal.rs:76 | The list state's `select` sets the cursor to exactly the index given, in bounds or not. |
| Terminal.StatefulList.Next | src/terminal.rs:24-36 | The new cursor is `NextCursor` of the old one. Items are immutable. The method requires a non-empty list whenever a cursor is present. |
| Terminal.StatefulList.Previous | src/terminal.rs:38-50 | The new cursor is `PreviousCursor` of the old one. Items are immutable. The method requires a non-empty list only when the cursor is at 0. |
| Terminal.StatefulList.Unselect | src/terminal.rs:52-54 | The cursor becomes `None`; the items cannot change. |
| Terminal.RunListSelection | src/terminal.rs:75-131 | The loop sets the cursor to `Some(0)` whatever the length, then dispatches the events with the list's own methods. Its outcome equals the pure fold `Run` from `Some(0)`. |
| Terminal.NextCursorCases | src/terminal.rs:24-36 | On a non-empty list, `next` goes from `i < len-1` to `i+1`, from `i >= len-1` to 0, and from `None` to 0. |
| Terminal.PreviousCursorCases | src/terminal.rs:38-50 | On a non-empty list, `previous` goes from 0 to `len-1`, from `i > 0` to `i-1`, and from `None` to 0 (not to the last index). |
| Terminal.NextIsSuccessorModulo | src/terminal.rs:24-36 | From an in-bounds index, `next` gives `(i+1) mod len`. |
| Terminal.PreviousIsPredecessorModulo | src/terminal.rs:38-50 | From an in-bounds index, `previous` gives `(i-1) mod len`. |
| Terminal.PreviousUndoesNext | src/terminal.rs:24-50 | From an in-bounds index, `previous` undoes `next` and `next` undoes `previous`. |
| Terminal.UnselectThenNext | src/terminal.rs:24-54 | After `unselect`, `next` selects the first item, even on an empty list. |
| Terminal.NextTimesAdd | src/terminal.rs:24-36 | `a + b` calls of `next` are `a` calls followed by `b` calls. |
| Terminal.NextTimesClimbs | src/terminal.rs:24-36 | `k` calls of `next` from `i`, with `i + k < len`, reach `i + k`. |
| Terminal.NextTimesReachesZero | src/terminal.rs:24-36 | `len - i` calls of `next` from an in-bounds `i` reach 0. |
| Terminal.NextCycle | src/terminal.rs:24-36 | `len` calls of `next` return an in-bounds cursor to where it started. |
| Terminal.MovesStayInBounds | src/terminal.rs:24-50 | On a non-empty list, `next` and `previous` keep an in-bounds or absent cursor in bounds. |
| Terminal.PreviousPastEnd | src/terminal.rs:38-50 | A cursor more than one past the end only steps back by one under `previous`, and stays out of bounds. |
| Terminal.EnterReturnsItem | src/terminal.rs:107-118 | Enter with an in-bounds cursor returns exactly `items[i]`. |
| Terminal.EnterWithoutItemFails | src/terminal.rs:107-118 | Enter with no cursor fails with "Nothing selected". With a cursor out of bounds it fails with "Invalid selection". |
| Terminal.QuitKeysFail | src/terminal.rs:104-126 | 'q' with any modifiers, and 'c' with exactly Control, fail with "Nothing selected". |
| Terminal.IgnoredEvents | src/terminal.rs:101-128 | Non-key events, non-press key events, a plain or otherwise modified 'c', other characters and other keys leave the cursor unchanged. |
| Terminal.Step | src/terminal.rs:101-128 | A returned pair is the item under an in-bounds cursor. Every error is "Nothing selected" or "Invalid selection". A panic needs an empty list and a present cursor. Only a key press moves the cursor. |
| Terminal.Run | src/terminal.rs:78-132 | Over any events, a returned pair is one of the items, every error is "Nothing selected" or "Invalid selection", and a panic needs an empty list. |
| Terminal.MovementKeys | src/terminal.rs:119-121 | Left clears the cursor. On a non-empty list, Down and Up apply `next` and `previous`. |
| Terminal.MovesOnEmptyList | src/terminal.rs:24-50 | On an empty list, Down panics when a cursor is present, Up panics from a cursor at 0 and steps `i + 1` back to `i`, and both select index 0 when no cursor is present. |
| Terminal.EmptyListCursorAtMostZero | src/terminal.rs:75-131 | On an empty list, starting with no cursor or a cursor at 0, a run that is still going has no cursor or a cursor at 0. |
| Terminal.RunAppend | src/terminal.rs:78-132 | Running two event sequences in turn is running their concatenation: an ending outcome stays ended. |
| Terminal.QuitAtAnyPoint | src/terminal.rs:104-106 | Whatever events came before, while the loop runs, a following 'q' fails with "Nothing selected". |
| Terminal.StepIsSafe | src/terminal.rs:101-128 | On a non-empty list with an in-bounds cursor, one event never panics and never gives "Invalid selection". It keeps the cursor in bounds, and a selected pair is one of the items. |
| Terminal.RunIsSafe | src/terminal.rs:78-132 | The same holds for any sequence of events. |
| Terminal.SelectionOnNonEmptyListIsSafe | src/terminal.rs:75-132 | `RunListSelection` on a non-empty list never panics, never gives "Invalid selection", and only returns one of the items. |
| Terminal.EmptyListNeverSelects | src/terminal.rs:107-118 | On an empty list no sequence of events returns a pair. |
| Terminal.ScenarioWrapForward | src/terminal.rs:75-131 | Over three items, Down three times wraps back to index 0, and Enter then returns the first pair. |
| Terminal.ScenarioWrapBackward | src/terminal.rs:75-131 | Up from the initial index wraps to the last item, and Enter returns it. |
| Terminal.ScenarioEmptyList | src/terminal.rs:75-131 | Started on an empty list: Enter gives "Invalid selection", Down panics, Left then Enter gives "Nothing selected", and 'q' gives "Nothing selected". |
| Common.FirstWhere | src/manifests.rs:514-529 | A prompt that asks again picks the first answer it accepts. The index found is accepted and every earlier one is not. With no index, no answer was accepted. |
| Common.InsertAll | src/proxy_schemas.rs:113 | A hash map filled by insertions never holds more keys than insertions were made. |
| JsonValues.StringField | src/proxy_schemas.rs:209 | A string is read exactly when the key is present and holds a JSON string, and it is that string. |
| Urls.SetPath | src/proxy_schemas.rs:184 | Only the path changes, to the one given, and the string form is origin, new path and tail. |
| NameRules.AllNameChars | src/manifests.rs:519-521 | True exactly when every character is an ASCII letter, digit, '_' or '-'. |
| NameRules.ParseName | src/manifests.rs:514-529 | The name parser accepts a string iff it is non-empty and every character is allowed. An accepted string is returned unchanged. |
| NameRules.AcceptedName | src/proxy_schemas.rs:153-172 | The prompt returns an answer iff some answer is valid. The one returned is valid, is the first valid answer, and the parser accepts it as is. |
| Manifests.ParseRootType | src/manifests.rs:219-233 | Each menu label maps to the root type it names. |
| Manifests.RootTypeMenuRoundTrip | src/manifests.rs:219-233 | Every root type is on the menu, and choosing its label gives it back. |
| Manifests.SchemaFromAnswer | src/manifests.rs:265-278 | The schema is present iff the prompt succeeded with a non-empty answer, and then it is that answer. |
| Manifests.PromptForPostgresqlConfig | src/manifests.rs:245-307 | `type` is "postgresql". Host, database, port and SSL are as answered, and the schema follows `SchemaFromAnswer`. Both Vault fields are set iff Vault is used, so the vault flag equals the Vault answer. |
| Manifests.PromptForMysqlConfig | src/manifests.rs:310-354 | The same for MySQL, with `type` "mysql" and no schema. |
| Manifests.FormatSchema | src/manifests.rs:372-381 | The echo is never longer than 20 characters. It equals the submission iff the submission has at most 20 characters. Otherwise it is the first 17 characters followed by "...". |
| Manifests.FormatSchemaIdempotent | src/manifests.rs:372-381 | Formatting an echo again changes nothing. |
| Manifests.FormatSchemaKeepsPrefix | src/manifests.rs:372-381 | The echo starts with the submission, whole or cut to 17 characters. |
| Manifests.PromptForOpenapiConfig | src/manifests.rs:357-396 | A returned configuration always has a non-empty schema. There is none iff every pass ended with an empty schema. |
| Manifests.OpenapiConfigFromFirstNonEmptySchema | src/manifests.rs:385-394 | The configuration is built from the first pass whose schema is not empty. |
| Manifests.IsVault | src/manifests.rs:543-548 | The vault flag is only ever set for a PostgreSQL or MySQL configuration. |
| Manifests.IsVaultCases | src/manifests.rs:543-548 | The vault flag is set iff the configuration is PostgreSQL or MySQL and names a Vault database. OpenAPI or no configuration never sets it. |
| Manifests.PromptForDbCredentials | src/manifests.rs:399-470 | With Vault, both Vault fields are set to the answers and username and password are absent. Without Vault it is the other way round. |
| Manifests.CredentialsFollowConfiguration | src/manifests.rs:399-470 | Exactly one of the two field pairs, Vault or username/password, is present. |
| Manifests.PromptForOpenapiCredentials | src/manifests.rs:473-511 | `basic` stores type "basic" with the token `BasicToken(username, password)`. `bearer` stores the token as typed. Both fields are absent iff the choice is `none` or empty. |
| Manifests.BasicToken | src/manifests.rs:489-490 | The basic token is never empty, and its length is a multiple of four. |
| Manifests.BasicTokenDecodes | src/manifests.rs:482-496 | The basic token decodes to the UTF-8 bytes of the username, a ':' byte and the password's bytes. A username without ':' contributes no ':' byte, so that colon is the first one. |
| Manifests.PromptUserForManifest | src/manifests.rs:513-566 | A manifest results iff a valid name is given and, for OpenAPI, some pass has a non-empty schema. Its details are below this table. |
| Utf8.EncodeChar | src/manifests.rs:489-490 | A character takes 1 to 4 bytes. It takes one byte iff it is ASCII, and that byte is the code point. The bytes of longer encodings are all at least 0x80. |
| Utf8.EncodeConcat | src/manifests.rs:489-490 | The encoding of a concatenation is the concatenation of the encodings. |
| Utf8.AsciiByteOnlyFromItself | src/manifests.rs:489-490 | An ASCII character that does not occur in a text does not occur among the text's bytes either. |
| Base64.SextetChar | src/manifests.rs:490 | No 6-bit value is written as the padding character '='. |
| Base64.CharSextet | src/manifests.rs:490 | Reading a character of the alphabet gives back the value written as it. |
| Base64.SextetRoundTrip | src/manifests.rs:490 | Writing a 6-bit value and reading it back gives the value. |
| Base64.EncodeTriple | src/manifests.rs:490 | Three bytes become four characters, none of them padding. |
| Base64.EncodeFinal | src/manifests.rs:490 | A last group of one or two bytes becomes four characters ending in '='. |
| Base64.Encode | src/manifests.rs:490 | The encoding's length is a multiple of four, and it is empty iff the data is. |
| Base64.EncodedLength | src/manifests.rs:490 | The encoding has `4 * ceil(n / 3)` characters. |
| Base64.Decode | src/manifests.rs:490 | The inverse of the encoding (RFC 4648, section 4). Decodable text has a length that is a multiple of four, and decodes to no bytes only when it is empty. |
| Base64.DecodeEncode | src/manifests.rs:490 | Decoding the encoding of any byte sequence gives that sequence back. |
| ProxySchemas.CreateUrl | src/proxy_schemas.rs:179-186 | Only the path changes, to `/api/v1/manifests/<id>//proxy-schemas`, with the double slash of the code. |
| ProxySchemas.ManifestIdRoundTrip | src/proxy_schemas.rs:179-186 | The id can be read back from the path, whatever it holds. Every path that reads back is the path of the id read. |
| ProxySchemas.ItemUrl | src/proxy_schemas.rs:50-51 | The item URL starts with the configured origin and ends with '/' followed by the schema id. |
| ProxySchemas.ItemUrlShape | src/proxy_schemas.rs:50-51 | The item URL is the schemas URL followed by `/<id>`. When the configured URL has a query or fragment, the id lands after it. |
| ProxySchemas.ManifestEntry | src/proxy_schemas.rs:199-223 | An element is accepted iff it is an object with a string `id` and a string `name`, and the map holds exactly those strings. Otherwise the error names the first failing check: not an object, then `id`, then `name`. |
| ProxySchemas.ListManifests | src/proxy_schemas.rs:188-225 | The listing's own error is passed on, and a non-array gives "could not get manifest". A success has one map per element, in order. Otherwise the error is that of the first bad element. |
| ProxySchemas.ListedEntriesHaveIdAndName | src/proxy_schemas.rs:205-222 | Every map of a successful listing has exactly the keys `id` and `name`. |
| ProxySchemas.GetListManifests | src/proxy_schemas.rs:188-225 | The loop over the elements, stopping at the first bad one, computes `ListManifests`. |
| ProxySchemas.KeyPairs | src/proxy_schemas.rs:104-116 | The options are `"<name> (<id>)"`, each paired with its id, in listing order. |
| ProxySchemas.SelectFrom | src/proxy_schemas.rs:101-125 | The listing's and the prompt's errors are passed on. A found id belongs to a manifest whose option is the choice. "Could not find manifest" results iff no manifest shows the choice. |
| ProxySchemas.SelectManifest | src/proxy_schemas.rs:101-125 | Listing, key-map loop and lookup together compute `SelectFrom` of the listing. |
| ProxySchemas.ChosenOptionGivesItsId | src/proxy_schemas.rs:112-124 | Choosing a manifest's option gives its id when no later manifest shows the same option. A later one would overwrite the key. |
| ProxySchemas.DistinctOptionsSelectTheirManifest | src/proxy_schemas.rs:104-124 | When all options differ, every option maps back to its own manifest's id. |
| ProxySchemas.FieldPairs | src/proxy_schemas.rs:131-137 | Each round contributes its field name with "pii" or "secret", in order. |
| ProxySchemas.FieldsEntered | src/proxy_schemas.rs:127-150 | A field map results iff some round answers "no more". |
| ProxySchemas.FieldsStep | src/proxy_schemas.rs:137-146 | A round inserts its field, and the first round answered "no more" finishes the map. |
| ProxySchemas.PromptForFields | src/proxy_schemas.rs:127-150 | The insertion loop computes `FieldsEntered`: the fields of all rounds up to the first "no more". |
| ProxySchemas.FieldsEnteredShape | src/proxy_schemas.rs:127-150 | A finished map is never empty, since it holds the last round's field. Every label in it is "pii" or "secret". |
| ProxySchemas.LabelsArePiiOrSecret | src/proxy_schemas.rs:132-137 | Every value of a field map is "pii" or "secret". |
| ProxySchemas.LaterFieldOverwrites | src/proxy_schemas.rs:137 | A field named in a later round takes the later label. |
| ProxySchemas.FieldNamesAnswered | src/proxy_schemas.rs:130-147 | The field names of the map are exactly the names answered. |
| Cli.Collect | src/main.rs:89-109 | It always succeeds. "url" is present iff a URL was given, holding its string form. "token" is present iff a token was given, holding it. No other key exists. |
| Cli.CollectReadsBack | src/main.rs:89-109 | Not an operation of the source but a consequence of `Collect`: reading the collected map back gives exactly the URL's string form and the token. |
| Cli.SetupLogging | src/main.rs:112-123 | The log level is Debug iff verbose, else Info. The time level is Error iff timestamps are on, else Trace. Thread and target levels are Trace. |

`Manifests.PromptUserForManifest` guarantees, in full:
- Every returned manifest has the first valid name and the chosen root type.
- Its configuration and credentials are present, and their variants match the root type.
- For PostgreSQL and MySQL, the vault flag equals the Vault answer, and the
  credentials are `PromptForDbCredentials` of that flag.
- For PostgreSQL and MySQL, the configuration is exactly the record built from
  the answers (`PostgresqlConfigOf`, `MysqlConfigOf`): host, database, port, SSL,
  the schema by `SchemaFromAnswer`, and both Vault fields iff Vault is used.
- For OpenAPI, the configuration is the one `PromptForOpenapiConfig` builds from
  the passes, so its schema is non-empty. The credentials follow
  `PromptForOpenapiCredentials`.

## Left out

- Terminal I/O: raw mode (`setup_terminal`, `restore_terminal`), drawing with
  ratatui, and the 250 ms `event::poll`. The events are the sequence the poll
  would deliver; a poll that times out delivers nothing and so is not an event.
  Errors from `draw`, `poll` and `read` are not modelled.
- Any clamping of the cursor that the list widget may do while rendering: the
  model keeps the cursor exactly as the code sets it.
- The cursor uses unbounded integers. `usize` overflow on `i + 1` cannot occur
  for an in-bounds index. The one underflow, `len() - 1` on an empty list, becomes
  the outcome `Panicked` (debug builds); the value a release build would wrap to
  is not modelled.
- All HTTP traffic (`client`, `maybe_add_auth`, `send`, `json`) and the commands
  that only wrap it: `all`, `get_by_id` and `create` in src/manifests.rs, and
  `list`, `get_by_id`, `delete` and `create` in src/proxy_schemas.rs. The URLs of
  the proxy-schema commands are modelled (`CreateUrl`, `ItemUrl`); the URLs of the
  manifest commands (src/manifests.rs:45, 55-58, 208) are not. The listing response is an input. The
  `manifests::list` that src/proxy_schemas.rs calls is not part of this model.
- The prompt widgets themselves: defaults (port 5432 or 3306, SSL on, Vault off),
  help texts, masking, and the parsing of a typed number into `u16`. Their answers
  are inputs, and a numeric answer is already a `u16`. The `unwrap` and `panic!`
  paths on a failed prompt are left out. So are the unreachable `panic!` arms for
  labels not on a menu: `ParseRootType` and `PromptForOpenapiCredentials` require
  a label the menu offers. A failed Vault confirmation panics too
  (`map_err(...).unwrap()`, src/manifests.rs:241); the Vault answer is a `bool`.
- The "You must provide a schema." message is printed output and is not modelled.
- Manifests.PromptForOpenapiConfig: an unbounded restart is modelled over the
  finite passes given, with `None` when they all had an empty schema.
- Url parsing, percent-encoding in `set_path`, and `Url`'s normalisation of the
  string form are not modelled. A URL is origin, path and tail.
- serde encoding of the records (`skip_serializing_if`, renamed fields) and of the
  proxy schema sent by `create`.
- The multi-source configuration merge in src/config.rs (file, environment,
  arguments), clap parsing, `TermLogger::init` and `main`'s dispatch. The model
  stops at the level values handed to the logger.
- Base64 decoding accepts exactly what the encoder produces plus other quads of
  the alphabet. It does not reject non-canonical padding bits; only the round
  trip is claimed.
