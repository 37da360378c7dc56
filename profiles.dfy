/** The user profile record edited on the profile page and checked by the completeness toast. */
module Profiles {
  import opened Wrappers

  /** The five text fields a profile form edits, in the order the toast lists them. */
  datatype Field = FullName | Email | Phone | Gender | Address

  const RequiredFields: seq<Field> := [FullName, Email, Phone, Gender, Address]

  /** The profile page's `User` state: every field a string. */
  datatype Profile = Profile(
    fullName: string,
    email: string,
    phone: string,
    gender: string,
    address: string,
    photo: string)
  {
    function Get(f: Field): string {
      match f
      case FullName => fullName
      case Email => email
      case Phone => phone
      case Gender => gender
      case Address => address
    }

    /** `{ ...User, [name]: value }` for one of the five form fields. */
    function With(f: Field, v: string): (p: Profile)
      ensures p.Get(f) == v
      ensures forall g :: g != f ==> p.Get(g) == Get(g)
      ensures p.photo == photo
    {
      match f
      case FullName => this.(fullName := v)
      case Email => this.(email := v)
      case Phone => this.(phone := v)
      case Gender => this.(gender := v)
      case Address => this.(address := v)
    }
  }

  const EmptyProfile := Profile("", "", "", "", "", "")

  /** A profile as the server sends it: any field may be missing. */
  datatype ProfileData = ProfileData(
    fullName: Option<string>,
    email: Option<string>,
    phone: Option<string>,
    gender: Option<string>,
    address: Option<string>,
    photo: Option<string>)
  {
    function Get(f: Field): Option<string> {
      match f
      case FullName => fullName
      case Email => email
      case Phone => phone
      case Gender => gender
      case Address => address
    }
  }

  /** `{ fullName: data.fullName || "", ... }`: every missing field becomes "". */
  function Normalize(d: ProfileData): (p: Profile)
    ensures forall f :: p.Get(f) == d.Get(f).GetOr("")
    ensures p.photo == d.photo.GetOr("")
  {
    Profile(d.fullName.GetOr(""), d.email.GetOr(""), d.phone.GetOr(""),
            d.gender.GetOr(""), d.address.GetOr(""), d.photo.GetOr(""))
  }
}
