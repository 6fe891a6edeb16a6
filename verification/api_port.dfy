/** The client-facing port record and its validation (package `v1`). */
module ApiV1 {
  import opened Common

  /** `api.Port`: the record a client sends and receives as JSON. */
  datatype ApiPort = ApiPort(
    city: string,
    coordinates: seq<Float64>,
    country: string,
    name: string,
    province: string)

  /** The reasons `Validate` rejects a record, one per check, in check order. */
  datatype ValidationError = NameEmpty | CoordinatesEmpty | CoordinatesNotTwo | CountryEmpty {

    /** The text of the Go error value `Validate` returns. */
    function Message(): string
    {
      match this
      case NameEmpty => "port's name can not be empty"
      case CoordinatesEmpty => "port's coordinates can not be empty"
      case CoordinatesNotTwo => "port's coordinates should have only 2 values"
      case CountryEmpty => "port's country can not be empty"
    }
  }

  /** What the service demands of a record, stated independently of the
      order in which `Validate` checks it. */
  predicate WellFormed(p: ApiPort)
  {
    p.name != [] && |p.coordinates| == 2 && p.country != []
  }

  /** `Port.Validate`: an ordered chain of checks; the first that fails
      decides the error, `None` stands for the nil error. */
  function Validate(p: ApiPort): (r: Option<ValidationError>)
    ensures r == None <==> WellFormed(p)
    ensures p.name == [] ==> r == Some(NameEmpty)
    ensures p.name != [] && |p.coordinates| == 0 ==> r == Some(CoordinatesEmpty)
    ensures p.name != [] && |p.coordinates| != 0 && |p.coordinates| != 2 ==> r == Some(CoordinatesNotTwo)
    ensures p.name != [] && |p.coordinates| == 2 && p.country == [] ==> r == Some(CountryEmpty)
  {
    if |p.name| == 0 then Some(NameEmpty)
    else if |p.coordinates| == 0 then Some(CoordinatesEmpty)
    else if |p.coordinates| != 2 then Some(CoordinatesNotTwo)
    else if |p.country| == 0 then Some(CountryEmpty)
    else None
  }

  /** City and province are never looked at: changing them cannot change
      the verdict. */
  lemma ValidateIgnoresCityAndProvince(p: ApiPort, city: string, province: string)
    ensures Validate(p.(city := city, province := province)) == Validate(p)
  {
  }

  /** The four rejections the unit tests exercise, each with its message. */
  lemma ValidateTestCases(c: Float64)
    ensures Validate(ApiPort("", [], "", "", "")).value.Message() == "port's name can not be empty"
    ensures Validate(ApiPort("", [], "", "test", "")).value.Message() == "port's coordinates can not be empty"
    ensures Validate(ApiPort("", [c, c, c], "", "test", "")).value.Message() == "port's coordinates should have only 2 values"
    ensures Validate(ApiPort("", [c, c], "", "test", "")).value.Message() == "port's country can not be empty"
  {
  }
}
