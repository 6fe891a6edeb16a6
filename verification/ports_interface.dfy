/** The service-side port record, the sentinel errors and the shapes of the
    `PortService` replies (package `ports`, interface.go). */
module Ports {
  import opened Common

  /** `ports.Port`: the record the store keeps. */
  datatype Port = Port(
    city: string,
    coordinates: seq<Float64>,
    country: string,
    name: string,
    province: string)

  /** Go's zero value `ports.Port{}`: every string empty, no coordinates. */
  const ZeroPort := Port("", [], "", "", "")

  /** `PortWithID`: a record together with the key it was read under. */
  datatype PortWithID = PortWithID(port: Port, id: string)

  /** Errors a `PortService` may return. The two sentinels are the ones the
      interface declares; `ErrUnexpected` stands for any other error an
      implementation might produce (the in-memory store never does). */
  datatype ServiceError = ErrPortNotFound | ErrPortAlreadyExist | ErrUnexpected(text: string) {

    /** The text `err.Error()` yields. */
    function Message(): string
    {
      match this
      case ErrPortNotFound => "port not found"
      case ErrPortAlreadyExist => "port already exist"
      case ErrUnexpected(t) => t
    }
  }

  /** The `(Port, error)` pair `Get` returns. */
  datatype Lookup = Lookup(port: Port, err: Option<ServiceError>)
}
