# Port records service: a Dafny model

This project models the core of a small Go service that stores geographic
port records (name, country, city, province, coordinates) under string IDs.
It covers four pieces of sequential logic:

- **Validation** (`api/v1/port.go`): the ordered presence and length checks of
  `Port.Validate`.
- **In-memory store** (`pkg/services/ports/memory/ports.go`): `NewPortMemory`,
  `Create`, `Get` and `Update` over a map from ID to record. They return the
  two sentinel errors `ErrPortNotFound` and `ErrPortAlreadyExist`.
- **Streaming reader** (`pkg/services/ports/reader.go`): `ReadPorts` walks a
  top-level JSON object key by key. It stops on cancellation or on a key
  that is not a string. It skips bodies that do not decode. It sends every
  other entry as a `PortWithID`.
- **HTTP handlers** (`pkg/services/ports/router/http_router.go`): the two
  record conversions, and the decisions of `CreatePort`, `UpdatePort` and
  `GetPort`. Each decision leads from the path ID, the parsed body and the
  service reply to a status code.

Everything is a value. The store is a `map<string, Port>`, and each mutating
operation returns the store it leaves behind together with its error. The
reader receives the document as the tokenizer would deliver it:

- whether the first token could be read;
- then one entry per top-level key, holding the key token and the outcome of
  decoding the value after it.

Cancellation is given as the first loop iteration at which the context
reports an error. Sending on the channel becomes appending to the output.
Each handler becomes a pure function. It returns the service call it makes,
if any, and the response it writes. `ServeCreate`, `ServeUpdate` and
`ServeGet` connect the handlers to the in-memory store.

Coordinates are Go `float64` values. The model keeps them as 64-bit IEEE 754
bit patterns (`bv64`). They are never computed with, only counted and
copied.

Files: `common.dfy` (Option, Float64), `api_port.dfy` (module `ApiV1`),
`ports_interface.dfy` (module `Ports`), `memory.dfy` (module `Memory`),
`reader.dfy` (module `PortReader`), `router.dfy` (module `Router`).

The doc comment of `ReadPorts` (`pkg/services/ports/reader.go:19`) asks for
input of the form `{ "portID1": {}, "portID2": {}, ... }`. The code does not
enforce this (`pkg/services/ports/reader.go:22-25`): it consumes the first
token without checking that it is `{`, and fails only if that token cannot
be read. The model follows the code. A root that is a bare
string or number therefore yields no ports and no error (`EmptyObject`). A
root that is an array is walked like an object: a string element is taken as
a key, and a non-string element stops the read (`NonStringKeyAborts`).

## Model

| member | source | states |
|---|---|---|
| ApiV1.Validate | api/v1/port.go:22-40 | succeeds iff the name is non-empty, there are exactly 2 coordinates and the country is non-empty; an empty name gives the name error whatever else holds; then no coordinates, then a count other than 2, then an empty country, each with its own error |
| ApiV1.ValidateIgnoresCityAndProvince | api/v1/port.go:37-39 | changing city and province never changes the verdict |
| ApiV1.ValidateTestCases | api/v1/port_test.go:23-45 | the four table-test records are rejected with exactly the expected messages |
| Memory.NewPortMemory | pkg/services/ports/memory/ports.go:11-15 | a new store holds no ID |
| Memory.Create | pkg/services/ports/memory/ports.go:25-35 | fails with ErrPortAlreadyExist exactly when the ID is present, and then leaves the store unchanged; otherwise maps the ID to the given record; the key set grows by the ID alone and every other stored record is kept |
| Memory.Get | pkg/services/ports/memory/ports.go:38-44 | succeeds exactly when the ID is present and returns the stored record itself; otherwise returns the zero record with ErrPortNotFound |
| Memory.Update | pkg/services/ports/memory/ports.go:48-56 | fails with ErrPortNotFound exactly when the ID is absent, and then leaves the store unchanged; otherwise replaces the record; the key set never changes and other IDs keep their records |
| Memory.FreshStoreIsEmpty | pkg/services/ports/memory/ports.go:11-15 | every lookup in a new store answers ErrPortNotFound with the zero record |
| Memory.CreateThenGet | pkg/services/ports/memory/ports.go:25-44 | after creating a new ID, a lookup of it returns exactly that record, and other IDs answer as before |
| Memory.CreateTwice | pkg/services/ports/router/http_router_test.go:138-146 | a second Create of the same ID fails with ErrPortAlreadyExist and leaves the store as the first call left it |
| Memory.UpdateThenGet | pkg/services/ports/memory/ports.go:48-56 | after updating a present ID, a lookup returns the new record whole, and other IDs answer as before |
| Memory.UpdateAbsent | pkg/services/ports/memory/ports.go:49-51 | updating an absent ID fails with ErrPortNotFound and the ID stays absent |
| Memory.CreateUpdateGet | test/update_test.go:46-72 | Create, then Update, then Get returns the second record, with no field merging |
| Memory.CreateAll | pkg/services/ports/memory/ports.go:25-35 | a run of Create calls reports one result per record and leaves the old keys plus the records' IDs |
| Memory.CreateAllKeepsExisting | pkg/services/ports/memory/ports.go:29-31 | a record already stored survives any later run of Create calls unchanged |
| Memory.CreateAllDistinct | pkg/services/ports/memory/ports.go:25-35 | for pairwise distinct IDs new to the store, every Create succeeds and every record can be read back: no write is lost |
| PortReader.StopIndex | pkg/services/ports/reader.go:29-42 | the index of the first key the loop cannot get past (cancellation seen or non-string key), or the entry count; every earlier key is passed |
| PortReader.StopIndexUnique | pkg/services/ports/reader.go:29-42 | any index meeting that description is the stop index |
| PortReader.ReadKeys | pkg/services/ports/reader.go:29-51 | from a key on, the loop emits the decoded entries up to the stop index and returns the error at that key, or nil at the end of the object |
| PortReader.ReadPorts | pkg/services/ports/reader.go:20-52 | an unreadable first token gives its error and no output; otherwise the output is the decoded entries before the stop index, in order, and the error is the one at the stop key or nil |
| PortReader.EmitAppend | pkg/services/ports/reader.go:44-48 | entries contribute to the output independently and in document order |
| PortReader.EmitTagsOwnKey | pkg/services/ports/reader.go:44-47 | every emitted port comes from one entry, tagged with that entry's key and holding that entry's decoded body |
| PortReader.EmitKeepsDecoded | pkg/services/ports/reader.go:44-47 | every entry with a string key and a decodable body is emitted |
| PortReader.FirstTokenUnreadable | pkg/services/ports/reader_test.go:13-20 | when the first token cannot be read, the reader returns an error and emits nothing |
| PortReader.EmptyObject | pkg/services/ports/reader_test.go:22-29 | an empty object emits nothing and returns nil, even with a cancelled context |
| PortReader.CancelledBeforeKey | pkg/services/ports/reader.go:30-33 | cancellation seen before key k returns the context's error, and the output is exactly what the keys before k emitted |
| PortReader.NonStringKeyAborts | pkg/services/ports/reader.go:35-42 | a non-string key returns the key-type error at once and nothing after it is emitted |
| PortReader.CleanReadEmitsAll | pkg/services/ports/reader.go:29-51 | with no cancellation and string keys throughout, the read returns nil and emits exactly the decodable entries in order |
| PortReader.DecodeInto | pkg/services/ports/reader.go:43-45 | each entry is decoded into a fresh zero record: a field the body sets takes the body's value, a field it leaves out stays empty, and nothing carries over from an earlier entry |
| PortReader.SkipShiftsStop | pkg/services/ports/reader.go:29-48 | with no cancellation, inserting an undecodable entry leaves the stop key where it was if the loop stops before it, and moves it one key later otherwise |
| PortReader.SkipEmitsNothing | pkg/services/ports/reader.go:44-48 | an undecodable entry inside the read prefix adds nothing to the output |
| PortReader.SkipUndecodable | pkg/services/ports/reader.go:44-48 | when no cancellation is seen, an entry whose body does not decode is skipped without error: the result is that of the document without it (with cancellation the skipped entry still uses up one loop iteration, so the check point shifts by one key) |
| PortReader.SingleEntryDocument | pkg/services/ports/reader_test.go:31-50 | the one-entry test document yields exactly one port tagged portID, with city, country and province empty |
| Router.ConvertToAPIPort | pkg/services/ports/router/http_router.go:159-168 | all five fields are copied; the coordinates are the same values in the same order |
| Router.ConvertFromAPIPort | pkg/services/ports/router/http_router.go:170-179 | all five fields are copied; the coordinates are the same values in the same order |
| Router.ConversionRoundTrip | pkg/services/ports/router/http_router.go:159-179 | each conversion undoes the other, in both orders |
| Router.AdmitWrite | pkg/services/ports/router/http_router.go:42-63 | a write reaches the service iff the ID is non-empty, the body parses and validates; otherwise 400 for the ID, the given status for a parse failure, 400 with the validator's message for an invalid record |
| Router.CreatePort | pkg/services/ports/router/http_router.go:81-120 | Create is called iff ID, parse and validation pass, with the converted record; rejections 400; reply nil gives 201, ErrPortAlreadyExist 409, any other error 500 |
| Router.UpdatePort | pkg/services/ports/router/http_router.go:41-78 | Update is called iff ID, parse and validation pass; a parse failure gives 500; reply nil gives 200, ErrPortNotFound 404, any other error 500 |
| Router.GetPort | pkg/services/ports/router/http_router.go:123-157 | empty ID gives 400 with no call; ErrPortNotFound gives 404, another error 500; success gives 200 with the converted record, or 500 when it cannot be serialized |
| Router.NoCallNoDependence | pkg/services/ports/router/http_router.go:56-61 | when a handler makes no service call, its response does not depend on the service's reply |
| Router.EmptyIdRejected | pkg/services/ports/router/http_router.go:43-46 | an empty ID gives 400 in every handler, whatever the body, without a service call |
| Router.ParseFailureAsymmetry | pkg/services/ports/router/http_router.go:88-93 | a body that does not parse gives 400 in CreatePort and 500 in UpdatePort, without a service call |
| Router.ServeCreate | pkg/services/ports/router/http_router.go:81-120 | served by the store: a rejected request leaves the store as it was; a valid record under a new ID gives 201 and is stored converted, under a stored ID 409 with the store unchanged; no stored key is lost, at most the ID is added, and every record already stored keeps its value |
| Router.ServeUpdate | pkg/services/ports/router/http_router.go:41-78 | served by the store: a rejected request leaves the store as it was; a valid record under a stored ID gives 200 and replaces it, under an absent ID 404 with the store unchanged; the key set never changes and every other ID keeps its record |
| Router.ServeGet | pkg/services/ports/router/http_router.go:123-157 | served by the store: an empty ID gives 400; an ID it does not hold gives 404 with the sentinel's text; a held ID gives 200 with the stored record converted when it can be serialized, and 500 "failed to serialize a port" when it cannot |
| Router.CreateThenGetOverHttp | pkg/services/ports/router/http_router_test.go:52-73 | posting a valid record under a new ID gives 201, and reading it back gives 200 with the record posted |
| Router.CreateExistingOverHttp | pkg/services/ports/router/http_router_test.go:138-146 | posting under a stored ID gives 409 and leaves the store unchanged |
| Router.UpdateThenGetOverHttp | test/update_test.go:46-72 | putting a valid record under a stored ID gives 200, and reading it back gives the new record whole |
| Router.UpdateAbsentOverHttp | pkg/services/ports/router/http_router.go:64-66 | putting under an ID not stored gives 404 and inserts nothing |

## Left out

- `cmd/main.go` is not part of this model. It holds the bulk-load pipeline, signal handling and server start-up. These are concurrency and process control. The pipeline's consumer goroutine `select`s between cancellation and the channel. It ends the process with `log.Fatalf` on ANY `Create` error unless the context is already cancelled (`cmd/main.go:103-109`). That includes `ErrPortAlreadyExist` for a key repeated in the seed file. The reader never closes the channel; its caller does (`cmd/main.go:120`).
- Memory.CreateAll: keeps calling `Create` after a call fails, while the bulk-load consumer makes no further call once one fails. The two agree only on runs where every call succeeds, which is the case `CreateAllDistinct` describes.
- Channel blocking and backpressure: a send is modelled as an append that always completes. The real send `channel <- port` (`pkg/services/ports/reader.go:47`) does not watch the context. The consumer stops receiving once the context is cancelled (`cmd/main.go:94-96`). So if the buffer is full when cancellation arrives, `ReadPorts` blocks for ever instead of returning the context's error. PortReader.ReadPorts, PortReader.CancelledBeforeKey and PortReader.CleanReadEmitsAll describe the calls in which every send is received.
- The store's `sync.RWMutex`: the model is sequential. Only `Create` takes the lock; `Get` and `Update` read and write the map without it. The model claims nothing about concurrent use.
- The `context.Context` parameters of the store methods: they are never used.
- `encoding/json`: tokenizing, `Decode`, `Marshal`, `Unmarshal` and `ParseRequestPort` are library behaviour. They enter only as given outcomes: key tokens, body decode outcomes, a parse outcome and a serializable flag. After a failed `Decode`, the real tokenizer may report errors for everything that follows. The model takes each later entry's outcome as given.
- The `omitempty` JSON tags, and the difference between a nil and an empty coordinate slice: `Validate` only looks at the length.
- Floating-point semantics of coordinates: only their count and verbatim copying matter.
- `net/http` and `httprouter`: route registration in `NewPortRouter`, path matching, headers, and the newline `http.Error` appends. GET, POST and PUT share the `ports/:id` pattern (`pkg/services/ports/router/http_router.go:33-35`). Through the router, a request with an empty ID gets 404 from the library in all three. So the handlers' own 400 branches for an empty ID are reachable only by a direct call.
- `errors.Is` on wrapped errors: a service error wrapping a sentinel is modelled as the sentinel itself, text included.
- Logging calls in the handlers.
- The texts of tokenizer and context errors: the model names the kind only (`TokenError`, `Cancelled`).
- `test/*.go`: these need a live server and random data; two of their scenarios are restated as lemmas above.
