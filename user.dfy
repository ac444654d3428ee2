/**
 * The user aggregate: an identity, six text fields and its change-tracking metadata.
 */
module Models {
  import opened Domain

  /** The six text fields of a user, as one value. */
  datatype Profile = Profile(
    firstName: string,
    lastName: string,
    nickname: string,
    password: string,
    email: string,
    country: string)

  class User {
    const id: int
    var firstName: string
    var lastName: string
    var nickname: string
    var password: string
    var email: string
    var country: string
    const meta: Meta

    /** NewUser: every argument lands in its own field and the metadata is brand new. */
    constructor (id: int, fn: string, ln: string, nickname: string, pw: string, email: string, country: string, now: Time)
      ensures this.id == id
      ensures GetProfile() == Profile(fn, ln, nickname, pw, email, country)
      ensures fresh(meta)
      ensures meta.version == 0 && !meta.disabled && meta.createdAt == now && meta.updatedAt == now
      ensures meta.changes == [] && !meta.HasChanges()
    {
      this.id := id;
      this.country := country;
      this.email := email;
      this.firstName := fn;
      this.lastName := ln;
      this.nickname := nickname;
      this.password := pw;
      this.meta := new Meta(now);
    }

    function GetProfile(): Profile
      reads this
    {
      Profile(firstName, lastName, nickname, password, email, country)
    }

    method SetFirstName(fn: string)
      modifies this`firstName, meta`changes
      ensures GetProfile() == old(GetProfile()).(firstName := fn)
      ensures meta.changes == old(meta.changes) + [EmptyMarker] && meta.HasChanges()
    {
      firstName := fn;
      meta.RegisterChanges([EmptyMarker]);
    }

    method SetLastName(ln: string)
      modifies this`lastName, meta`changes
      ensures GetProfile() == old(GetProfile()).(lastName := ln)
      ensures meta.changes == old(meta.changes) + [EmptyMarker] && meta.HasChanges()
    {
      lastName := ln;
      meta.RegisterChanges([EmptyMarker]);
    }

    method SetNickname(nickname: string)
      modifies this`nickname, meta`changes
      ensures GetProfile() == old(GetProfile()).(nickname := nickname)
      ensures meta.changes == old(meta.changes) + [EmptyMarker] && meta.HasChanges()
    {
      this.nickname := nickname;
      meta.RegisterChanges([EmptyMarker]);
    }

    method SetPassword(pw: string)
      modifies this`password, meta`changes
      ensures GetProfile() == old(GetProfile()).(password := pw)
      ensures meta.changes == old(meta.changes) + [EmptyMarker] && meta.HasChanges()
    {
      password := pw;
      meta.RegisterChanges([EmptyMarker]);
    }

    method SetEmail(email: string)
      modifies this`email, meta`changes
      ensures GetProfile() == old(GetProfile()).(email := email)
      ensures meta.changes == old(meta.changes) + [EmptyMarker] && meta.HasChanges()
    {
      this.email := email;
      meta.RegisterChanges([EmptyMarker]);
    }

    method SetCountry(country: string)
      modifies this`country, meta`changes
      ensures GetProfile() == old(GetProfile()).(country := country)
      ensures meta.changes == old(meta.changes) + [EmptyMarker] && meta.HasChanges()
    {
      this.country := country;
      meta.RegisterChanges([EmptyMarker]);
    }

    /** The metadata is not in the frame: it plays no part in the answer. */
    predicate IsZero()
      reads this
    {
      firstName == "" && lastName == "" && nickname == "" && password == ""
      && email == "" && country == "" && id == 0
    }
  }
}
