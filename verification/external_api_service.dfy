/**
 * The directory client (src/collaborators/services/external-api-service.ts):
 * flattens the nested user records of the directory's answer and wraps every
 * failure in an error with a fixed message prefix. The HTTP call itself is
 * an input: the answer is either the response body or the error axios threw.
 */
module ExternalApi {
  import opened Wrappers
  import opened ErrorHandler

  datatype Address = Address(city: Option<string>)
  datatype Company = Company(name: Option<string>)

  /** One element of the response body; an absent nested object is `None`. */
  datatype ExternalUser = ExternalUser(
    id: int,
    name: string,
    email: string,
    address: Option<Address>,
    company: Option<Company>)

  /** The flat record handed to the import; an absent upstream field stays `None`. */
  datatype MappedUser = MappedUser(name: string, email: string, city: Option<string>, company: Option<string>)

  /** What `axios.get` produced: a response body, an axios error, or some other thrown error. */
  datatype HttpOutcome = Response(data: seq<ExternalUser>) | AxiosFailure(message: string) | OtherFailure

  const FetchFailedMessage := "Failed to fetch users from external API"

  /** `user.address.city` and `user.company.name` throw a TypeError when the object is missing. */
  predicate Mappable(u: ExternalUser)
  {
    u.address.Some? && u.company.Some?
  }

  function MapUser(u: ExternalUser): MappedUser
    requires Mappable(u)
  {
    MappedUser(u.name, u.email, u.address.value.city, u.company.value.name)
  }

  /** `response.data.map(...)`: one flat record per element, same order; `None` if any element throws. */
  function MapUsers(data: seq<ExternalUser>): (r: Option<seq<MappedUser>>)
    ensures r.Some? <==> forall k :: 0 <= k < |data| ==> Mappable(data[k])
    ensures r.Some? ==> |r.value| == |data|
    ensures r.Some? ==> forall k :: 0 <= k < |data| ==>
              && r.value[k].name == data[k].name
              && r.value[k].email == data[k].email
              && r.value[k].city == data[k].address.value.city
              && r.value[k].company == data[k].company.value.name
  {
    if data == [] then Some([])
    else if !Mappable(data[0]) then None
    else
      var rest := MapUsers(data[1..]);
      if rest.None? then None else Some([MapUser(data[0])] + rest.value)
  }

  /** `fetchUsers`: the mapped users, or an `Error` whose message starts with the fixed prefix. */
  function FetchUsers(response: HttpOutcome): (r: Result<seq<MappedUser>, Failure>)
    ensures response.AxiosFailure? ==> r == Fail(NewError(FetchFailedMessage + ": " + response.message))
    ensures response.OtherFailure? ==> r == Fail(NewError(FetchFailedMessage))
    ensures response.Response? ==>
              (r.Ok? <==> forall k :: 0 <= k < |response.data| ==> Mappable(response.data[k]))
    ensures response.Response? && r.Ok? ==> Some(r.value) == MapUsers(response.data)
    ensures response.Response? && r.Fail? ==> r.error == NewError(FetchFailedMessage)
    ensures r.Fail? ==> r.error.kind.Plain? && r.error.message[..|FetchFailedMessage|] == FetchFailedMessage
  {
    match response
    case AxiosFailure(message) => Fail(NewError(FetchFailedMessage + ": " + message))
    case OtherFailure => Fail(NewError(FetchFailedMessage))
    case Response(data) =>
      var mapped := MapUsers(data);
      if mapped.Some? then Ok(mapped.value) else Fail(NewError(FetchFailedMessage))
  }

  /**
   * For every snapshot that maps: a record's `city` (company `name`) is absent
   * exactly when the directory left it out, and otherwise it is the
   * directory's value; no default is made up.
   */
  lemma MissingNestedFieldStaysAbsent(data: seq<ExternalUser>)
    requires FetchUsers(Response(data)).Ok?
    ensures var users := FetchUsers(Response(data)).value;
            forall k :: 0 <= k < |data| ==>
              && (users[k].city.None? <==> data[k].address.value.city.None?)
              && (users[k].company.None? <==> data[k].company.value.name.None?)
              && (users[k].city.Some? ==> users[k].city.value == data[k].address.value.city.value)
              && (users[k].company.Some? ==> users[k].company.value == data[k].company.value.name.value)
  {
  }
}
