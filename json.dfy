/**
 * The JSON message a user is published as: the identity, five of the six text fields and
 * the metadata, with `disabled` turned into `active`.
 */
module JsonMessages {
  import opened Domain
  import opened Models

  /** The message has no password field. */
  datatype UserMessage = UserMessage(
    id: int,
    firstName: string,
    lastName: string,
    nickname: string,
    email: string,
    country: string,
    createdAt: Time,
    updatedAt: Time,
    active: bool,
    version: Uint32)

  /** SerializeUser. The change markers are outside the frame: the message cannot depend on them. */
  function SerializeUser(u: User): (m: UserMessage)
    reads u, u.meta`disabled, u.meta`createdAt, u.meta`updatedAt, u.meta`version
    ensures m.active <==> !u.meta.disabled
    ensures m.id == u.id && m.version == u.meta.version
    ensures m.createdAt == u.meta.createdAt && m.updatedAt == u.meta.updatedAt
    ensures m.firstName == u.firstName && m.lastName == u.lastName && m.nickname == u.nickname
    ensures m.email == u.email && m.country == u.country
  {
    UserMessage(
      id := u.id,
      active := !u.meta.GetDisabled(),
      country := u.country,
      createdAt := u.meta.GetCreatedAt(),
      email := u.email,
      firstName := u.firstName,
      lastName := u.lastName,
      nickname := u.nickname,
      updatedAt := u.meta.GetUpdatedAt(),
      version := u.meta.GetVersion())
  }

  /** Two users that differ only in their passwords and change markers are published identically. */
  lemma SerializeIgnoresPasswordAndChanges(u: User, v: User)
    requires u.id == v.id && u.firstName == v.firstName && u.lastName == v.lastName
    requires u.nickname == v.nickname && u.email == v.email && u.country == v.country
    requires u.meta.version == v.meta.version && u.meta.disabled == v.meta.disabled
    requires u.meta.createdAt == v.meta.createdAt && u.meta.updatedAt == v.meta.updatedAt
    ensures SerializeUser(u) == SerializeUser(v)
  {
  }
}
