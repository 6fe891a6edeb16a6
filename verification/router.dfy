/** The HTTP handlers of package `router`, reduced to their decisions.

    A handler is a pure function from the outcome of each step it takes (the
    path ID, the parsed request body, the service's reply, whether the reply
    could be serialized) to the service call it makes, if any, and the
    response it writes. Each handler is a fixed ladder: empty ID, then parse,
    then validate, then the service call, then the status code. */
module Router {
  import opened Common
  import opened ApiV1
  import opened Ports
  import Memory

  const StatusOK := 200
  const StatusCreated := 201
  const StatusBadRequest := 400
  const StatusNotFound := 404
  const StatusConflict := 409
  const StatusInternalServerError := 500

  const IdMissingText := "id of a port must be provided"
  const ParseFailedText := "failed to parse input port's data"

  /** What a handler writes after the status line: an `http.Error` text, no
      body, or a record serialized as JSON. */
  datatype Payload = NoBody | Text(message: string) | Json(port: ApiPort)

  datatype Response = Response(status: int, payload: Payload)

  /** What `ParseRequestPort` made of the request body. */
  datatype ParseOutcome = Parsed(port: ApiPort) | ParseFailed

  /** A call on the `PortService`. */
  datatype Call = CreateCall(id: string, port: Port) | UpdateCall(id: string, port: Port) | GetCall(id: string)

  /** The service call a handler made, if any, and the response it wrote. */
  datatype Handled = Handled(call: Option<Call>, response: Response)

  /** `ConvertToAPIPort`: a field-for-field copy; coordinates are the same
      values in the same order. */
  function ConvertToAPIPort(p: Port): (a: ApiPort)
    ensures a.city == p.city && a.country == p.country && a.name == p.name && a.province == p.province
    ensures a.coordinates == p.coordinates
  {
    ApiPort(p.city, p.coordinates, p.country, p.name, p.province)
  }

  /** `convertFromAPIPort`: a field-for-field copy in the other direction. */
  function ConvertFromAPIPort(a: ApiPort): (p: Port)
    ensures p.city == a.city && p.country == a.country && p.name == a.name && p.province == a.province
    ensures p.coordinates == a.coordinates
  {
    Port(a.city, a.coordinates, a.country, a.name, a.province)
  }

  /** The two conversions are inverse to each other, in both orders. */
  lemma ConversionRoundTrip(p: Port, a: ApiPort)
    ensures ConvertFromAPIPort(ConvertToAPIPort(p)) == p
    ensures ConvertToAPIPort(ConvertFromAPIPort(a)) == a
  {
  }

  /** The first steps `CreatePort` and `UpdatePort` share: either an early
      response, or the record to hand to the service. */
  datatype Admission = Reject(response: Response) | Admit(port: Port)

  /** Empty ID, then parse, then validate. Only the status written for a
      parse failure differs between the two handlers. */
  function AdmitWrite(id: string, body: ParseOutcome, parseFailureStatus: int): (r: Admission)
    ensures r.Admit? <==> id != [] && body.Parsed? && WellFormed(body.port)
    ensures r.Admit? ==> r.port == ConvertFromAPIPort(body.port)
    ensures id == [] ==> r == Reject(Response(StatusBadRequest, Text(IdMissingText)))
    ensures id != [] && body.ParseFailed? ==> r == Reject(Response(parseFailureStatus, Text(ParseFailedText)))
    ensures id != [] && body.Parsed? && !WellFormed(body.port) ==>
      r == Reject(Response(StatusBadRequest, Text(Validate(body.port).value.Message())))
  {
    if |id| == 0 then Reject(Response(StatusBadRequest, Text(IdMissingText)))
    else match body
      case ParseFailed => Reject(Response(parseFailureStatus, Text(ParseFailedText)))
      case Parsed(apiPort) =>
        match Validate(apiPort)
        case Some(e) => Reject(Response(StatusBadRequest, Text(e.Message())))
        case None => Admit(ConvertFromAPIPort(apiPort))
  }

  /** `CreatePort`. `reply` is what `Create` returns; it is only consulted
      when the handler calls `Create`. */
  function CreatePort(id: string, body: ParseOutcome, reply: Option<ServiceError>): (h: Handled)
    ensures h.call.Some? <==> id != [] && body.Parsed? && WellFormed(body.port)
    ensures h.call.Some? ==> h.call.value == CreateCall(id, ConvertFromAPIPort(body.port))
    ensures id == [] ==> h.response == Response(StatusBadRequest, Text(IdMissingText))
    ensures id != [] && body.ParseFailed? ==> h.response == Response(StatusBadRequest, Text(ParseFailedText))
    ensures id != [] && body.Parsed? && !WellFormed(body.port) ==>
      h.response == Response(StatusBadRequest, Text(Validate(body.port).value.Message()))
    ensures h.call.Some? && reply == None ==> h.response == Response(StatusCreated, NoBody)
    ensures h.call.Some? && reply == Some(ErrPortAlreadyExist) ==>
      h.response == Response(StatusConflict, Text("port already exist"))
    ensures h.call.Some? && reply.Some? && reply != Some(ErrPortAlreadyExist) ==>
      h.response == Response(StatusInternalServerError, Text("failed to create a new port"))
  {
    match AdmitWrite(id, body, StatusBadRequest)
    case Reject(response) => Handled(None, response)
    case Admit(port) =>
      var response :=
        match reply
        case None => Response(StatusCreated, NoBody)
        case Some(ErrPortAlreadyExist) => Response(StatusConflict, Text(ErrPortAlreadyExist.Message()))
        case Some(_) => Response(StatusInternalServerError, Text("failed to create a new port"));
      Handled(Some(CreateCall(id, port)), response)
  }

  /** `UpdatePort`. Unlike `CreatePort`, a body that does not parse is
      answered with 500, not 400. */
  function UpdatePort(id: string, body: ParseOutcome, reply: Option<ServiceError>): (h: Handled)
    ensures h.call.Some? <==> id != [] && body.Parsed? && WellFormed(body.port)
    ensures h.call.Some? ==> h.call.value == UpdateCall(id, ConvertFromAPIPort(body.port))
    ensures id == [] ==> h.response == Response(StatusBadRequest, Text(IdMissingText))
    ensures id != [] && body.ParseFailed? ==> h.response == Response(StatusInternalServerError, Text(ParseFailedText))
    ensures id != [] && body.Parsed? && !WellFormed(body.port) ==>
      h.response == Response(StatusBadRequest, Text(Validate(body.port).value.Message()))
    ensures h.call.Some? && reply == None ==> h.response == Response(StatusOK, NoBody)
    ensures h.call.Some? && reply == Some(ErrPortNotFound) ==>
      h.response == Response(StatusNotFound, Text("port not found"))
    ensures h.call.Some? && reply.Some? && reply != Some(ErrPortNotFound) ==>
      h.response == Response(StatusInternalServerError, Text("failed to update a port"))
  {
    match AdmitWrite(id, body, StatusInternalServerError)
    case Reject(response) => Handled(None, response)
    case Admit(port) =>
      var response :=
        match reply
        case None => Response(StatusOK, NoBody)
        case Some(ErrPortNotFound) => Response(StatusNotFound, Text(ErrPortNotFound.Message()))
        case Some(_) => Response(StatusInternalServerError, Text("failed to update a port"));
      Handled(Some(UpdateCall(id, port)), response)
  }

  /** `GetPort`. `reply` is what `Get` returns; `serializable` is whether
      `json.Marshal` accepts the converted record. */
  function GetPort(id: string, reply: Lookup, serializable: bool): (h: Handled)
    ensures h.call.Some? <==> id != []
    ensures h.call.Some? ==> h.call.value == GetCall(id)
    ensures id == [] ==> h.response == Response(StatusBadRequest, Text(IdMissingText))
    ensures id != [] && reply.err == Some(ErrPortNotFound) ==>
      h.response == Response(StatusNotFound, Text("port not found"))
    ensures id != [] && reply.err.Some? && reply.err != Some(ErrPortNotFound) ==>
      h.response == Response(StatusInternalServerError, Text("failed to get port"))
    ensures id != [] && reply.err == None && serializable ==>
      h.response == Response(StatusOK, Json(ConvertToAPIPort(reply.port)))
    ensures id != [] && reply.err == None && !serializable ==>
      h.response == Response(StatusInternalServerError, Text("failed to serialize a port"))
  {
    if |id| == 0 then Handled(None, Response(StatusBadRequest, Text(IdMissingText)))
    else
      var response :=
        match reply.err
        case Some(ErrPortNotFound) => Response(StatusNotFound, Text(ErrPortNotFound.Message()))
        case Some(_) => Response(StatusInternalServerError, Text("failed to get port"))
        case None =>
          if serializable then Response(StatusOK, Json(ConvertToAPIPort(reply.port)))
          else Response(StatusInternalServerError, Text("failed to serialize a port"));
      Handled(Some(GetCall(id)), response)
  }

  /** When a handler makes no service call, its response cannot depend on
      what the service would have replied. */
  lemma NoCallNoDependence(id: string, body: ParseOutcome, r1: Option<ServiceError>, r2: Option<ServiceError>)
    ensures CreatePort(id, body, r1).call.None? ==> CreatePort(id, body, r1) == CreatePort(id, body, r2)
    ensures UpdatePort(id, body, r1).call.None? ==> UpdatePort(id, body, r1) == UpdatePort(id, body, r2)
  {
  }

  /** An empty ID is answered with 400 by every handler before the body is
      looked at and without calling the service. */
  lemma EmptyIdRejected(body: ParseOutcome, reply: Option<ServiceError>, lookup: Lookup, serializable: bool)
    ensures CreatePort("", body, reply) == Handled(None, Response(StatusBadRequest, Text(IdMissingText)))
    ensures UpdatePort("", body, reply) == Handled(None, Response(StatusBadRequest, Text(IdMissingText)))
    ensures GetPort("", lookup, serializable) == Handled(None, Response(StatusBadRequest, Text(IdMissingText)))
  {
  }

  /** A body that does not parse: `CreatePort` answers 400, `UpdatePort`
      answers 500, with the same text, and neither calls the service. */
  lemma ParseFailureAsymmetry(id: string, r1: Option<ServiceError>, r2: Option<ServiceError>)
    requires id != []
    ensures CreatePort(id, ParseFailed, r1) == Handled(None, Response(StatusBadRequest, Text(ParseFailedText)))
    ensures UpdatePort(id, ParseFailed, r2) == Handled(None, Response(StatusInternalServerError, Text(ParseFailedText)))
  {
  }

  /** `CreatePort` served by the in-memory store: the handler's call, if it
      makes one, is carried out on `m`. */
  function ServeCreate(m: Memory.PortMemory, id: string, body: ParseOutcome): (r: (Memory.PortMemory, Response))
    ensures CreatePort(id, body, None).call.None? ==> r == (m, CreatePort(id, body, None).response)
    ensures id in m.ports ==> r.0 == m
    ensures m.ports.Keys <= r.0.ports.Keys <= m.ports.Keys + {id}
    ensures forall k :: k in m.ports ==> r.0.ports[k] == m.ports[k]
    ensures id != [] && body.Parsed? && WellFormed(body.port) && id !in m.ports ==>
      r.1 == Response(StatusCreated, NoBody) && id in r.0.ports && r.0.ports[id] == ConvertFromAPIPort(body.port)
    ensures id != [] && body.Parsed? && WellFormed(body.port) && id in m.ports ==>
      r.1 == Response(StatusConflict, Text("port already exist"))
  {
    match AdmitWrite(id, body, StatusBadRequest)
    case Reject(response) => (m, response)
    case Admit(port) =>
      var created := Memory.Create(m, id, port);
      (created.memory, CreatePort(id, body, created.err).response)
  }

  /** `UpdatePort` served by the in-memory store. */
  function ServeUpdate(m: Memory.PortMemory, id: string, body: ParseOutcome): (r: (Memory.PortMemory, Response))
    ensures UpdatePort(id, body, None).call.None? ==> r == (m, UpdatePort(id, body, None).response)
    ensures r.0.ports.Keys == m.ports.Keys
    ensures forall k :: k in m.ports && k != id ==> r.0.ports[k] == m.ports[k]
    ensures id != [] && body.Parsed? && WellFormed(body.port) && id in m.ports ==>
      r.1 == Response(StatusOK, NoBody) && r.0.ports[id] == ConvertFromAPIPort(body.port)
    ensures id != [] && body.Parsed? && WellFormed(body.port) && id !in m.ports ==>
      r == (m, Response(StatusNotFound, Text("port not found")))
  {
    match AdmitWrite(id, body, StatusInternalServerError)
    case Reject(response) => (m, response)
    case Admit(port) =>
      var updated := Memory.Update(m, id, port);
      (updated.memory, UpdatePort(id, body, updated.err).response)
  }

  /** `GetPort` served by the in-memory store. */
  function ServeGet(m: Memory.PortMemory, id: string, serializable: bool): (r: Response)
    ensures id != [] && id !in m.ports ==> r == Response(StatusNotFound, Text("port not found"))
    ensures id == [] ==> r == Response(StatusBadRequest, Text(IdMissingText))
    ensures id != [] && id in m.ports && serializable ==> r == Response(StatusOK, Json(ConvertToAPIPort(m.ports[id])))
    ensures id != [] && id in m.ports && !serializable ==>
      r == Response(StatusInternalServerError, Text("failed to serialize a port"))
  {
    GetPort(id, Memory.Get(m, id), serializable).response
  }

  /** Posting a valid record under a new ID answers 201, and reading it back
      answers 200 with exactly the record that was posted. */
  lemma CreateThenGetOverHttp(m: Memory.PortMemory, id: string, a: ApiPort)
    requires id != [] && id !in m.ports && WellFormed(a)
    ensures ServeCreate(m, id, Parsed(a)).1 == Response(StatusCreated, NoBody)
    ensures ServeGet(ServeCreate(m, id, Parsed(a)).0, id, true) == Response(StatusOK, Json(a))
  {
    ConversionRoundTrip(ZeroPort, a);
  }

  /** Posting under an ID already stored answers 409 and leaves the store as it was. */
  lemma CreateExistingOverHttp(m: Memory.PortMemory, id: string, a: ApiPort)
    requires id != [] && id in m.ports && WellFormed(a)
    ensures ServeCreate(m, id, Parsed(a)) == (m, Response(StatusConflict, Text("port already exist")))
  {
  }

  /** Putting a valid record under a stored ID answers 200, and reading it
      back gives the new record whole, nothing of the old one. */
  lemma UpdateThenGetOverHttp(m: Memory.PortMemory, id: string, a: ApiPort)
    requires id != [] && id in m.ports && WellFormed(a)
    ensures ServeUpdate(m, id, Parsed(a)).1 == Response(StatusOK, NoBody)
    ensures ServeGet(ServeUpdate(m, id, Parsed(a)).0, id, true) == Response(StatusOK, Json(a))
  {
    ConversionRoundTrip(ZeroPort, a);
  }

  /** Putting under an ID that is not stored answers 404 and inserts nothing. */
  lemma UpdateAbsentOverHttp(m: Memory.PortMemory, id: string, a: ApiPort)
    requires id != [] && id !in m.ports && WellFormed(a)
    ensures ServeUpdate(m, id, Parsed(a)) == (m, Response(StatusNotFound, Text("port not found")))
  {
  }
}
