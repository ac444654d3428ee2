/**
 * The pure parts of the HTTP handlers: the response a user is rendered as, the filter a
 * list request builds from its form values, and the status an error is answered with.
 */
module Handlers {
  import opened Errors
  import opened Domain
  import opened Models
  import opened Postgresql
  import opened JsonMessages

  /** The response has no password field. */
  datatype UserResponse = UserResponse(
    id: int,
    firstName: string,
    lastName: string,
    nickname: string,
    email: string,
    country: string,
    createdAt: Time,
    updatedAt: Time,
    active: bool,
    version: Uint32)

  /** A list response always carries a list, possibly empty, never null. */
  datatype UsersResponse = UsersResponse(users: seq<UserResponse>)

  /** fromDomain. The change markers are outside the frame. */
  function FromDomain(u: User): (resp: UserResponse)
    reads u, u.meta`disabled, u.meta`createdAt, u.meta`updatedAt, u.meta`version
    ensures resp.active <==> !u.meta.disabled
    ensures resp.id == u.id && resp.version == u.meta.version
    ensures resp.createdAt == u.meta.createdAt && resp.updatedAt == u.meta.updatedAt
    ensures resp.firstName == u.firstName && resp.lastName == u.lastName && resp.nickname == u.nickname
    ensures resp.email == u.email && resp.country == u.country
  {
    UserResponse(
      country := u.country,
      active := !u.meta.GetDisabled(),
      createdAt := u.meta.GetCreatedAt(),
      email := u.email,
      firstName := u.firstName,
      lastName := u.lastName,
      nickname := u.nickname,
      updatedAt := u.meta.GetUpdatedAt(),
      version := u.meta.GetVersion(),
      id := u.id)
  }

  /** The HTTP response and the published message carry the same ten fields. */
  lemma ResponseAgreesWithMessage(u: User)
    ensures var resp, m := FromDomain(u), SerializeUser(u);
      && resp.id == m.id && resp.active == m.active && resp.version == m.version
      && resp.createdAt == m.createdAt && resp.updatedAt == m.updatedAt
      && resp.firstName == m.firstName && resp.lastName == m.lastName && resp.nickname == m.nickname
      && resp.email == m.email && resp.country == m.country
  {
  }

  /** fromDomainSlice: one response per user, in the same order, starting from an empty list. */
  method FromDomainSlice(users: seq<User>) returns (resp: UsersResponse)
    ensures |resp.users| == |users|
    ensures forall i :: 0 <= i < |users| ==> resp.users[i] == FromDomain(users[i])
  {
    var responses: seq<UserResponse> := [];
    for i := 0 to |users|
      invariant |responses| == i
      invariant forall j :: 0 <= j < i ==> responses[j] == FromDomain(users[j])
    {
      var u := FromDomain(users[i]);
      responses := responses + [u];
    }
    resp := UsersResponse(responses);
  }

  /** The form fields a list request may filter on. */
  const FilterKeys: set<string> := {"country", "first_name", "last_name", "email", "nickname"}

  /** `r.FormValue`: the first value of the field, or "" when it is absent. */
  function FormValue(form: map<string, string>, key: string): string
  {
    if key in form then form[key] else ""
  }

  /** The query terms of ListUsers: each filter field whose form value is not empty, with that value. */
  method BuildQueryTerms(form: map<string, string>) returns (terms: map<string, string>)
    ensures terms.Keys <= FilterKeys
    ensures forall k :: k in FilterKeys ==> (k in terms <==> FormValue(form, k) != "")
    ensures forall k :: k in terms ==> terms[k] == FormValue(form, k)
  {
    terms := map[];
    var country := FormValue(form, "country");
    var firstName := FormValue(form, "first_name");
    var lastName := FormValue(form, "last_name");
    var email := FormValue(form, "email");
    var nickname := FormValue(form, "nickname");
    if country != "" {
      terms := terms["country" := country];
    }
    if firstName != "" {
      terms := terms["first_name" := firstName];
    }
    if lastName != "" {
      terms := terms["last_name" := lastName];
    }
    if email != "" {
      terms := terms["email" := email];
    }
    if nickname != "" {
      terms := terms["nickname" := nickname];
    }
  }

  /** Every filter field names a text column other than the password, so the store accepts the query. */
  lemma FilterKeysAreColumns(terms: map<string, string>)
    requires terms.Keys <= FilterKeys
    ensures ValidColumns(terms)
    ensures "password" !in terms
  {
  }

  /**
   * The status GetUser and UpdateUser answer a service error with. Only the service's own
   * not-found sentinel is a 404: a wrapped store error and `ErrNoChanges` are 500s.
   */
  function StatusFor(err: Error): (status: int)
    ensures status == 404 <==> err == ServiceUserNotFound
    ensures status == 500 <==> err != ServiceUserNotFound
  {
    match err
    case ServiceUserNotFound => 404
    case _ => 500
  }
}
