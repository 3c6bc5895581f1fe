# hin core, modelled in Dafny

`hin` is a small Go toolkit for web services backed by a document store.
This project models its core and proves properties of the model:

- **Criteria engine.** A caller filter is either a pseudo-SQL expression
  such as `"name = ? AND age != ?"` with positional arguments, or a tagged
  struct. The engine turns it into a document-store filter map. That map
  always carries `deleted_at: nil` (soft-delete exclusion). Each clause maps
  to equality, `$ne`, `$regex` or `$in`. OR clauses become an `$or` list.
  `id` is rewritten to `_id`. Field names go to snake case.
- **Error-code registry.** Each code carries an HTTP status and a message.
  Codes are registered at start-up, and code 9999 (`ErrFailed`) is reserved.
  Errors are built from a code and functional options.
- **Result envelope.** Go values are turned into a JSON reply or a gRPC
  status: a typed error, a plain error, a registered code, or a body.
  Options are applied last.
- **`UnixTime`.** A time that crosses the JSON boundary as a millisecond
  integer, in either quoted or unquoted form.
- **Copy options.** Settings for the reflective copier: built-in type
  converters, flags, and a field filter.
- **Layered data access.** `MDR`, the operation outcome. The `BaseDAO`
  interface. The generic repository, which converts entities and models,
  handles Save, Find, Paging, soft Remove and Exist. The service layer. How
  the document-store DAO assembles MDRs, results and paging options from
  the driver's answers.

Modules, one per file:

- `Values` (`values.dfy`): document values, Go errors, instants with their
  millisecond reading, and int64 wrap-around.
- `Text` (`text.dfy`): the Go `strings` functions the core uses.
- `Decimal` (`decimal.dfy`): `strconv.ParseInt`, decimal formatting and
  quote trimming.
- `Clauses` (`clauses.dfy`): the tokens of pseudo-SQL clauses and the
  placeholders they take.
- `SnakeCase` (`snake.dfy`): `toSnake`.
- `Criteria` (`criteria.dfy`): the builder, `Mgo`, `buildMgoSql` and
  `buildMgoEntity`.
- `ErrorCodes` (`errors.dfy`).
- `Results` (`result.dfy`).
- `Types` (`types.dfy`).
- `Copier` (`copier.dfy`).
- `Mdr` (`mdr.dfy`).
- `Dao` (`dao.dfy`).
- `Repository` (`repo.dfy`).
- `Service` (`service.dfy`).
- `MongoDao` (`mongo.dfy`).

Several things the code does are modelled as parameters:

- The store behind `BaseDAO` is a `BaseDao` object. It records every call
  made to it and answers from a fixed function of the earlier calls and
  the current one.
- The driver's replies to the document-store DAO are method parameters. A
  cursor is the sequence of its documents' decode outcomes.
- The clock (`time.Now()`) is a parameter.
- A fresh object id is a parameter.
- The reflective copy is a pair of functions on the repository.

Four behaviours of the code worth noting; the model follows the code in
each:

- `Exist` reports only whether the MDR's count is positive. Its error is
  not consulted.
- In struct queries the tags `=` and `!=` add nothing to the filter,
  because Go's `switch` has no fall-through. `eq`, `ne` and every other
  tag write a key.
- An expression with neither `" AND "` nor `" OR "`, such as a lone
  `"id = ?"`, yields only the `deleted_at` entry.
- A piece with more than three tokens is skipped. A piece with fewer than
  three makes the code index past the end of its tokens. That case is
  outside the model's domain (`SqlInDomain`).

## Model

| member | source | states |
|---|---|---|
| Criteria.Criteria | criteria.go:18-33 | the builder keeps query and args; it holds an error exactly when the query is a string whose count of '?' differs from the number of args; a non-string query never errs |
| Criteria.Constraint | criteria.go:79-88 | a clause operator produces a value exactly for `=`, `!=`, `like`, `in`; unknown operators write nothing |
| Criteria.Key | criteria.go:64-70 | the key is `_id` exactly when the field is `_id`, or is `id` and the expression does not mention `_id` |
| Criteria.PassMapStep | criteria.go:59-89 | one more piece of a pass is one more clause step, and the argument counter advances by one exactly for a placeholder clause |
| Criteria.RunPass | criteria.go:58-89 | the pass loop builds the pass map of its pieces and advances the shared counter by the placeholders taken |
| Criteria.ApplyClause | criteria.go:60-88 | the loop body: a piece with more than three tokens is skipped, otherwise its clause is applied; the counter moves exactly for a "?" value |
| Criteria.OrBranches | criteria.go:94-99 | the `$or` list holds one single-key document per key of the OR map, each exactly once |
| Criteria.BuildMgoSql | criteria.go:47-103 | the result is the AND pass merged over `{deleted_at: nil}`, plus `$or` when the OR pass runs; `deleted_at` is always present; an expression with no separator gives only the base map |
| Criteria.PassMapKeys | criteria.go:58-89 | a pass map has exactly the keys written by its used clauses with known operators |
| Criteria.PassMapLastWins | criteria.go:58-89 | the last clause writing a key decides its value, and a placeholder clause reads the argument at its index, which is in range |
| Criteria.ClauseStepWrites | criteria.go:64-88 | a clause step writes its entry under the key it writes and leaves every other key unchanged |
| Criteria.SqlFilterParts | criteria.go:91-100 | the filter equals the AND filter on every key except `$or`; with " OR " in the expression, `$or` is the OR list; without it, the filter is the AND filter (which may itself hold a `$or` key written by an AND clause) |
| Criteria.AndClauseDecides | criteria.go:91-93 | the last AND clause writing a key decides that key in the returned filter, overriding the base `deleted_at` |
| Criteria.OrClauseDecides | criteria.go:94-99 | the last OR clause writing a key contributes its single-key document to `$or`, reading arguments after those the AND pass took |
| Criteria.OrListFromClauses | criteria.go:94-99 | every `$or` document is the entry of a key some OR clause writes |
| Criteria.TagEntry | criteria.go:144-157 | `=` and `!=` leave the filter unchanged; every other tag operator adds its key; other keys are untouched |
| Criteria.ApplyField | criteria.go:117-157 | defined for every field except an unexported one whose value the loop reads (skipped under `empty…`, or used untagged or with an operator other than `=` and `!=`), on which reflection panics; a field only touches its own key; a skipped field changes nothing unless tagged `nil…`/`empty…`; an untagged field writes its value under its snake-case name |
| Criteria.AddField | criteria.go:117-157 | the field-loop body computes `ApplyField`, for every field except an unexported one whose value it reads |
| Criteria.EmptyCaseFieldKeepsFilter | criteria.go:144-148 | a used field tagged `=` or `!=` is never read, so it may be unexported, and it leaves the filter unchanged |
| Criteria.UnexportedEqualsFieldAccepted | criteria.go:105-177 | a struct whose one field is unexported and tagged `=` is accepted and gives only `{deleted_at: nil}` |
| Criteria.AddTagged | criteria.go:144-157 | the tag switch computes `TagEntry` |
| Criteria.MoveId | criteria.go:159-174 | a non-null `id` moves to `_id` unless `_id` is present; every other key is unchanged |
| Criteria.BuildMgoEntity | criteria.go:105-177 | for nil, "" or a struct with no unexported field whose value is read (the cases that do not panic; unexported `=`/`!=` fields are accepted): nil or "" gives the base map; otherwise the field loop then the `id` move |
| Criteria.FieldsFilterKeys | criteria.go:105-158 | after the field loop `deleted_at` is present and every other key comes from some field |
| Criteria.EntityFilterShape | criteria.go:105-177 | an entity filter always has `deleted_at` and never a non-null `id` without `_id` |
| Criteria.Mgo | criteria.go:35-45 | nil exactly when the builder holds an error; otherwise the expression filter for a non-empty string, else the entity filter |
| Criteria.CriteriaIsReady | criteria.go:24-77 | a builder made from an expression whose clauses have at least three tokens never indexes past the arguments in either pass |
| Clauses.Tokens | criteria.go:60 | a piece splits into at least one token |
| Clauses.PieceTokens | criteria.go:59-60 | the tokens of each piece of a pass, piece by piece |
| Clauses.TakesArgIsPlaceholderClause | criteria.go:60-74 | a piece takes an argument exactly when it has two spaces and ends in " ?" |
| Clauses.MarksCount | criteria.go:53-74 | the placeholders a pass takes are as many as the positions of the '?' characters they stand for |
| Clauses.MarksArePlaceholders | criteria.go:72-74 | every position a pass takes holds a '?' |
| Clauses.MarksPrecedeSep | criteria.go:53-74 | a '?' taken before the last piece is followed by the pass separator |
| Clauses.MarksAtEnd | criteria.go:53-74 | a '?' taken by the last piece ends the expression |
| Clauses.MarksAreDisjoint | criteria.go:53-89 | the AND pass and the OR pass never take the same '?' |
| Clauses.LastEndsAreNotBothClauses | criteria.go:53-89 | the last AND piece and the last OR piece cannot both be placeholder clauses |
| Clauses.PassesConsumeAtMostPlaceholders | criteria.go:27-74 | the two passes together take no more arguments than the expression has '?' characters |
| SnakeCase.Snake | criteria.go:179-191 | the result has no upper-case letter, and an all-upper-case name is just lower-cased |
| SnakeCase.ToSnake | criteria.go:179-191 | the rune loop computes `Snake` |
| SnakeCase.SnakeOnlyInsertsUnderscores | criteria.go:183-190 | removing underscores from the snake-case form of an underscore-free name gives the lower-cased name |
| SnakeCase.SnakeLength | criteria.go:179-191 | the length grows by one per upper-case letter after the first, unless the name is all upper case |
| SnakeCase.SnakeIdempotent | criteria.go:179-191 | snake-casing twice is snake-casing once |
| Text.IndexFromIsFirst | criteria.go:54 | the index found is the first occurrence of the separator, and none means no occurrence |
| Text.SplitCharCount | criteria.go:60 | splitting on one character gives one more piece than the character's count |
| Text.CountCharIsPositions | criteria.go:27 | `strings.Count` of one character is the number of positions holding it |
| Text.LastPieceHasNoSep | criteria.go:59 | the last piece of a split contains no separator |
| Values.WrapInt64 | types.go:17 | the int64 reading of an integer is in int64 range and is the integer itself when it fits |
| Values.UnixMilliOfFromUnixMilli | copier.go:113-123 | `time.UnixMilli` then `UnixMilli` gives back the milliseconds |
| Decimal.ParseInt | types.go:23 | a successful parse is in int64 range; an error names `ParseInt` and the input |
| Decimal.ParseIntAccepts | types.go:23 | parsing succeeds exactly on an optionally signed non-empty decimal in int64 range, with its value |
| Decimal.ParseFormat | types.go:17-24 | an int64 printed in decimal parses back to itself |
| Decimal.TrimQuotedFormat | types.go:22 | trimming quotes from a printed integer wrapped in any number of quotes gives the printed integer |
| Types.UnixTime.constructor | types.go:31-34 | `NewUnixTime` wraps the given instant |
| Types.UnixTime.MarshalJSON | types.go:16-19 | the encoding is the decimal text of the instant's milliseconds, read as an int64 |
| Types.UnixTime.UnmarshalJSON | types.go:21-29 | on a parse error the receiver is unchanged and the error returned; otherwise it holds the parsed milliseconds |
| Types.EncodeIsDecimal | types.go:16-19 | the encoding is quote-free decimal text whose value is the wrapped milliseconds |
| Types.DecodeEncode | types.go:16-29 | decoding an encoding gives its milliseconds back, and for an int64 reading the same instant to the millisecond |
| Types.DecodeQuoted | types.go:21-26 | quoted and unquoted millisecond texts decode to the same value |
| Types.DecodeAccepts | types.go:21-26 | decoding succeeds exactly on decimal text in int64 range once quotes are trimmed |
| Types.IdentityFilter | types.go:43-45 | an identity query with a non-empty id filters on `_id` equal to its id, plus `deleted_at`; with the empty id it gives only `deleted_at` |
| ErrorCodes.Registry.constructor | error_code.go:81-83 | the registry starts with only the reserved failure code |
| ErrorCodes.Registry.Register | error_code.go:29-42 | 9999 panics and changes nothing; a duplicate panics naming the code and changes nothing; otherwise exactly that coder is added |
| ErrorCodes.Registry.ParseCoder | error_code.go:44-50 | a registered code gives its coder; an unknown one gives the failure coder |
| ErrorCodes.Registry.NewError | error_code.go:66-79 | the error's coder is the looked-up coder with the options applied in order; the registry is unchanged |
| ErrorCodes.OptionsKeepCode | error_code.go:54-64 | the package's own options (`WithErrMessage`, `WithErrHttpCode`) never change the code |
| ErrorCodes.LastMessageWins | error_code.go:54-58 | the last message option decides the message |
| ErrorCodes.NoMessageOptionKeeps | error_code.go:54-58 | without a message option the coder's message stays |
| ErrorCodes.LastHttpCodeWins | error_code.go:60-64 | the last HTTP-status option decides the status |
| ErrorCodes.NoHttpCodeOptionKeeps | error_code.go:60-64 | without an HTTP-status option the coder's status stays |
| ErrorCodes.NewErrorFields | error_code.go:66-79 | the error keeps the looked-up code, the given cause or the coder's message as its error, and the coder unchanged without options |
| Results.DoOpts | result.go:57-73 | the options are applied in order to the response |
| Results.Json | result.go:75-119 | the reply is determined by the registry, the request line, the value and the options |
| Results.GrpcReply | result.go:121-161 | every gRPC status carries code Aborted |
| Results.GrpcStatus | result.go:121-161 | the status is determined by the registry, the value and the options |
| Results.Fail | result.go:37-39 | `Fail` answers through `Json` with the given code |
| Results.Success | result.go:41-43 | `Success` answers through `Json` with code 0 |
| Results.Created | result.go:45-47 | `Created` answers through `Json` with the created code |
| Results.Updated | result.go:49-51 | `Updated` answers through `Json` with the updated code |
| Results.Deleted | result.go:53-55 | `Deleted` answers through `Json` with the deleted code |
| Results.OptionsKeepRequest | result.go:57-73 | options never change the request line or the gRPC code |
| Results.LastWithHttpCodeWins | result.go:63-67 | the last HTTP-status option decides the status; without one the status stays |
| Results.LastWithCodeWins | result.go:69-73 | the last code option decides the code; without one the code stays |
| Results.LastWithMessageWins | result.go:57-61 | the last message option decides the message; without one the message stays |
| Results.JsonCodedFields | result.go:85-116 | a coded value's reply takes status, code and message from the selected coder |
| Results.ErrorKinds | result.go:87-105 | a typed error selects its own coder; a plain error selects 9999 with HTTP 500 and the error's text |
| Results.JsonBody | result.go:117-118 | any other value is the body, with status 200 unless an option sets one |
| Results.JsonUnknownCode | result.go:107-115 | an unregistered integer code answers as the failure coder |
| Results.GrpcCodedFields | result.go:121-161 | a coded value's gRPC status carries the coder's code and message |
| Results.ResultCodesDistinct | result.go:163-189 | the built-in result codes are pairwise distinct and none is 9999 |
| Results.CodersMapKeys | result.go:191-206 | the registered map has exactly the codes of the listed coders |
| Results.RegisterResultCodes | result.go:191-206 | start-up registers every built-in coder and nothing else |
| Results.Boot | result.go:191-206 | after start-up the registry holds the failure coder and the built-in coders |
| Results.StartCodesAnswers | result.go:41-55 | after start-up Success, Created, Updated and Deleted answer 200, 201, 200 and 204 with their own codes and messages |
| Copier.Convert | copier.go:78-125 | a built-in converter fails only with the "not matching" error |
| Copier.ConvertFailsOnWrongType | copier.go:78-125 | a built-in converter fails exactly on a value of the wrong source type, and succeeds with its target type |
| Copier.Int64TimeRoundTrip | copier.go:102-123 | int64 to time and back gives the same integer |
| Copier.TimeInt64RoundTrip | copier.go:102-123 | time to int64 and back gives the same instant to the millisecond |
| Copier.HidStringRoundTrip | copier.go:80-101 | identifier to string and back gives the same identifier |
| Copier.FilterMapping | copier.go:40-74 | every field is mapped; with skip a listed field goes to `_` and others to themselves; with only, the reverse |
| Copier.ApplyKeys | copier.go:59-67 | the inner loop leaves a field's default target unless the field is listed, in which case it is flipped; nothing else changes |
| Copier.CopierOption.constructor | copier.go:76-125 | a copy option starts with the given converters and every flag off |
| Copier.CopierOption.Apply | copier.go:16-74 | one option changes exactly its own setting; a filter maps the fields of its source type (`id` for `HID`; `wall`, `ext`, `loc` for `time.Time`), and a filter on `string` or `int64`, on which `NumField` panics, is outside the domain |
| Copier.Copy | copier.go:76-131 | for options that do not panic, the settings are the built-ins with the options applied in order |
| Copier.ConvertersStartWithBuiltins | copier.go:76-131 | with the package's own options only, the converters are the four built-ins followed by the extra ones in order |
| Copier.LastFlagWins | copier.go:22-38 | the last option setting a flag decides it |
| Copier.UnsetFlagIsFalse | copier.go:22-38 | a flag no option sets is off |
| Copier.LastFilterWins | copier.go:40-74 | the last filter option decides the field mapping, built over its source type's field names |
| Copier.NoFilterNoMapping | copier.go:76-131 | without a filter option there is no field mapping |
| Mdr.WithIdsAppends | ddd.go:108-123 | `setID` keeps the error and earlier ids, appends the new ids in order, and counts the ids given |
| Mdr.MDR.constructor | ddd.go:98-102 | an MDR literal holds the given fields |
| Mdr.MDR.SetID | ddd.go:108-123 | the receiver's new state is `WithIds` of its old state |
| Mdr.MDR.SetCount | ddd.go:125-128 | only the count changes |
| Mdr.MDR.ID | ddd.go:104-106 | the first identifier; defined only when there is one (the code indexes past the end of an empty list) |
| Mdr.FirstId | ddd.go:104-123 | the first identifier is one of the MDR's ids, and any later `setID` keeps it in front |
| Mdr.FirstIdAfterSetID | ddd.go:104-123 | after `setID`, an MDR that held no ids answers `ID` with the first id given; one that held some keeps its first |
| Mdr.NewErrMDR | ddd.go:130-132 | a fresh MDR holding only the error |
| Dao.BaseDao.constructor | ddd.go:76-86 | a store that has received no calls |
| Dao.BaseDao.Call | ddd.go:76-86 | a call is recorded and answered by the store's behaviour |
| Dao.BaseDao.Insert | ddd.go:77 | records the insert; its MDR |
| Dao.BaseDao.InsertMany | ddd.go:78 | records the bulk insert; its MDR |
| Dao.BaseDao.Find | ddd.go:79 | records the find; its models and MDR |
| Dao.BaseDao.FindOne | ddd.go:80 | records the find-one; its model and MDR |
| Dao.BaseDao.Update | ddd.go:81 | records the update; its MDR |
| Dao.BaseDao.UpdateById | ddd.go:82 | records the update by id; its MDR |
| Dao.BaseDao.UpdateMany | ddd.go:83 | records the bulk update; its MDR |
| Dao.BaseDao.Paging | ddd.go:84 | records the paging call; its models, total and MDR |
| Dao.BaseDao.CreateIndexes | ddd.go:85 | records the index creation; its MDR |
| Repository.SaveDecision | ddd.go:213-226 | Save inserts exactly when the model's id is the zero identifier, changing only the id to the fresh one; otherwise it updates by id, changing only `updated_at` when the model has one; a model without an id field is updated under `<invalid Value>` |
| Repository.BaseRepo.constructor | ddd.go:141-151 | a repository has no model converter and no type converters |
| Repository.BaseRepo.WithModelConverter | ddd.go:153-156 | sets the model converter and nothing else, returning the receiver |
| Repository.BaseRepo.WithTypeConverter | ddd.go:158-161 | sets the type converters and nothing else, returning the receiver |
| Repository.BaseRepo.DefaultCopyOptions | ddd.go:193 | the copy uses the built-in converters, then the repository's |
| Repository.BaseRepo.CopiedEntitiesPointwise | ddd.go:168-172 | copying a model list gives each model's entity in order |
| Repository.BaseRepo.CopiedModelsPointwise | ddd.go:180-184 | copying an entity list gives each entity's model in order |
| Repository.BaseRepo.ToModel | ddd.go:187-198 | the converter's model when set, else the copy with the repository's converters |
| Repository.BaseRepo.ToEntity | ddd.go:200-211 | the converter's entity when set, else the copy with the repository's converters |
| Repository.BaseRepo.ToEntities | ddd.go:163-173 | the converter's list when set, else each model's entity in order |
| Repository.BaseRepo.ToModels | ddd.go:175-185 | the converter's list when set, else each entity's model in order |
| Repository.BaseRepo.Save | ddd.go:213-226 | exactly one store call, insert or update by id as `SaveDecision` says; its MDR |
| Repository.BaseRepo.Find | ddd.go:228-234 | one find with the criteria's filter; no entities on error, else the entities of the models found |
| Repository.BaseRepo.FindOne | ddd.go:236-243 | one find-one with the criteria's filter; the zero entity on error, else the model's entity |
| Repository.BaseRepo.Paging | ddd.go:245-251 | one paging call with the filter and page; no entities on error, else the page's entities and the total |
| Repository.BaseRepo.Remove | ddd.go:253-255 | a soft delete: one update setting `deleted_at` to now on the filter |
| Repository.BaseRepo.Exist | ddd.go:257-260 | one find-one; true exactly when its MDR counts more than zero |
| Service.BaseSrv.constructor | ddd.go:27-35 | a service over the given repository |
| Service.BaseSrv.FindOne | ddd.go:37-40 | the repository's find-one on the criteria of the query, with its error |
| Service.BaseSrv.Find | ddd.go:42-45 | the repository's find on the criteria of the query, with its error |
| Service.BaseSrv.Paging | ddd.go:47-63 | the envelope echoes page and count; on error no items and total 0, else the repository's items and total |
| Service.BaseSrv.Remove | ddd.go:65-67 | the repository's soft delete on the criteria of the query, with its error |
| MongoDao.PagingWindows | ddd.go:358-362 | a page skips count times page documents and takes count; page n+1 starts where page n ends |
| MongoDao.DrainedAll | ddd.go:334-341 | the cursor loop yields every document in order exactly when all decode, else the first decode error |
| MongoDao.Collect | ddd.go:334-341 | the loop computes `Drained`, stopping at the first decode error |
| MongoDao.DrainedStops | ddd.go:335-339 | once a document fails to decode the loop fails with its error |
| MongoDao.Insert | ddd.go:296-299 | the MDR holds the driver's error, then `setID` of the inserted id |
| MongoDao.InsertMany | ddd.go:301-308 | the models are sent as given; the MDR counts and lists the inserted ids in order |
| MongoDao.Update | ddd.go:310-313 | the MDR holds the modified count, reset by an upserted id when there is one |
| MongoDao.UpdateById | ddd.go:315-318 | the MDR counts 1 and lists the given id whatever the driver reports |
| MongoDao.Find | ddd.go:325-344 | newest-first options; an error MDR and no models on a query or decode error, else every model and their count |
| MongoDao.FindOne | ddd.go:346-356 | the decoded model; an error MDR on a decode error, else count 1 |
| MongoDao.Paging | ddd.go:358-384 | the page options; a total of 0 on a query or decode error; the driver's count on a count error; else the page's models, the total and their count |
| MongoDao.CreateIndexes | ddd.go:386-389 | an MDR holding only the driver's error |

## Left out

- The document-store driver is not part of this model. The model passes
  the driver's replies in as parameters.
- `MongoDao.Find`, `MongoDao.Paging`, `MongoDao.Insert`, `MongoDao.InsertMany`,
  `MongoDao.Update` and `MongoDao.UpdateById` do not model the panics of the
  code when the driver fails and returns a nil result: reading
  `InsertedID`, `InsertedIDs`, `ModifiedCount` or `UpsertedID` from it
  (ddd.go:298, 307, 312, 317, 322) and the deferred `Close` of a nil
  cursor (ddd.go:329, 365) dereference nil. Their error clauses describe a
  driver that returns a result together with its error.
- `MongoDao.Update` also stands for `UpdateMany`, whose MDR assembly is
  the same (ddd.go:312, 322); its driver call (`UpdateMany` on a list of
  models instead of `UpdateOne`, ddd.go:320-321) is not modelled.
- `Criteria.OrBranches` and `Criteria.BuildMgoSql` do not fix the order of
  the `$or` list. It follows Go's map iteration order, which is
  unspecified. The contracts state that each key has exactly one document
  in the list.
- `Criteria.MoveId` follows the code's single special mapping (`id` to
  `_id`). The generic loop over a map of special keys is not modelled.
- The reflective copy itself (`copier.CopyWithOption`) is not modelled. It
  is a pair of functions on the repository. Its error is only logged by
  the code.
- Custom converter functions are opaque values. Only the four built-in
  conversions are modelled.
- Struct queries are modelled as their sequence of fields: name, tag,
  value, and whether the value is zero or invalid. Reflection is not
  modelled. A non-struct, non-string query, on which the code panics, is
  outside the model's domain.
- `Criteria.BuildMgoEntity`, `Criteria.ApplyField` and `Criteria.AddField`
  leave out the panic of `value.Interface()` on an unexported field whose
  value is read (criteria.go:129, 135, 147, 150-156): such structs are
  outside their domain (`EntityQuery`, `Readable`). A used field tagged `=`
  or `!=` falls into an empty case (criteria.go:145, 148), is not read, and
  is accepted whatever its name. A field counts as exported when its name
  starts with an ASCII upper-case letter; Go also accepts other
  Unicode upper-case letters.
- `Repository.SaveDecision` and `Repository.BaseRepo.Save` cover models
  whose `ID` field is a string or absent. For an `ID` field of another
  type, such as `HID`, the code updates under that value's `String()` text
  naming its type (ddd.go:216, 221); such models are not representable.
- `Criteria.BuildMgoSql` stores an empty `$or` list when the expression
  has " OR " but no OR clause writes a key. The code stores a nil slice
  there (criteria.go:95-99), which the driver encodes as null.
- `ErrorCodes.OptionsKeepCode` holds for the package's own error options
  only. `ErrorOption` is an exported function type (error_code.go:52), so
  a caller may pass a closure that changes `Code`; caller-written options
  are not modelled.
- `Copier.ConvertersStartWithBuiltins` holds for the package's own copy
  options only. `CopyOption` is an exported function type (copier.go:14),
  so a caller may pass a closure that replaces `Converters`; caller-written
  options are not modelled.
- `SnakeCase.Snake` and `SnakeCase.ToSnake` case-map ASCII letters only.
  Go's `strings.ToUpper` and `strings.ToLower` (criteria.go:180-181, 190)
  map every Unicode letter, so `toSnake("Äb")` is `"äb"` in Go and
  `"Äb"` in the model. The loop's own upper-case test (`'A'`..`'Z'`,
  criteria.go:185) is ASCII in both.
- `Copier.CopierOption.Apply` and `Copier.Copy` leave out the panic of a
  `WithFilter` whose source is not a struct (`string`, `int64`), on which
  `NumField` panics (copier.go:45): such options are outside their
  domain (`OptionReady`).
- `ParseID` is modelled as total. The source's fatal log on malformed xid text
  (id.go:41-49) ends the process, which the model does not capture.
- `Types.UnixTime.MarshalJSON` gives the int64 reading of the milliseconds
  through `WrapInt64`. Instants are nanosecond integers.
- `BaseModel`, `PagingQuery` and `PagingDTO` are modelled as shapes, with
  no behaviour of their own.
- `Results.Json` and `Results.GrpcStatus` return the reply value. gin's
  response writing, `json.Marshal` and gRPC transport are not modelled.
- The registry's mutex is not modelled, so registrations are sequential.
- Logging is not modelled.
- `NewMongoDAO` and its configuration lookup are not modelled.
- `current_context.go`, `jwt.go`, `casbin.go`, `db_client.go`, `file.go`,
  `middleware.go`, `validation.go` and `app.go` are not part of this model.
  They are framework wiring around the core.
