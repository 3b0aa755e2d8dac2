/**
 * The read-only properties of a user account (backend-python
 * app/models/user.py): the active and admin flags and the address line,
 * which drops falsy parts and joins the rest with " - ".
 *
 * The street and city parts are f-strings: a missing number or state is
 * rendered as the text "None" inside them.
 */
module UserModel {
  import opened Wrappers
  import opened Text

  datatype UserRole = Customer | Staff | Admin | SuperAdmin
  datatype UserStatus = Active | Inactive | Blocked | Pending

  datatype User = User(
    role: UserRole,
    status: UserStatus,
    street: Option<string>,
    number: Option<string>,
    complement: Option<string>,
    neighborhood: Option<string>,
    city: Option<string>,
    state: Option<string>,
    zipCode: Option<string>)

  /** `is_active`. */
  predicate IsActive(u: User) { u.status == Active }

  /** `is_admin`. */
  predicate IsAdmin(u: User) { u.role == Admin || u.role == SuperAdmin }

  /**
   * `is_active` reads only the status and `is_admin` only the role: an
   * admin is an `ADMIN` or `SUPER_ADMIN` of any status, and a customer or
   * staff member is never one.
   */
  lemma AccountFlags(u: User, s: UserStatus, r: UserRole)
    ensures IsActive(u) <==> u.status == Active
    ensures IsAdmin(u) <==> u.role in {Admin, SuperAdmin}
    ensures u.role == Customer || u.role == Staff ==> !IsAdmin(u)
    ensures IsAdmin(u.(status := s)) == IsAdmin(u) && IsActive(u.(role := r)) == IsActive(u)
  {
  }

  /** How an f-string renders an optional text column. */
  function Render(o: Option<string>): string
  {
    if o.Some? then o.value else "None"
  }

  /** The five candidate parts, before `filter(None, ...)`. */
  function Slots(u: User): seq<Option<string>>
  {
    [ if Truthy(u.street) then Some(u.street.value + ", " + Render(u.number)) else None,
      u.complement,
      u.neighborhood,
      if Truthy(u.city) then Some(u.city.value + "/" + Render(u.state)) else None,
      if Truthy(u.zipCode) then Some("CEP: " + u.zipCode.value) else None ]
  }

  /** One part after `filter(None, ...)`: itself when truthy, else nothing. */
  function KeepOne(o: Option<string>): seq<string>
  {
    if Truthy(o) then [o.value] else []
  }

  /** `filter(None, parts)`: the truthy parts, in order. */
  function KeepTruthy(parts: seq<Option<string>>): (r: seq<string>)
    ensures |r| <= |parts|
  {
    if parts == [] then [] else KeepOne(parts[0]) + KeepTruthy(parts[1..])
  }

  /** `filter(None, ...)` over the five slots, spelled out. */
  lemma KeepTruthyFive(s: seq<Option<string>>)
    requires |s| == 5
    ensures KeepTruthy(s) == KeepOne(s[0]) + KeepOne(s[1]) + KeepOne(s[2]) + KeepOne(s[3]) + KeepOne(s[4])
  {
    assert KeepTruthy(s[4..]) == KeepOne(s[4]) by { assert s[4..][1..] == []; }
    assert KeepTruthy(s[3..]) == KeepOne(s[3]) + KeepTruthy(s[4..]) by { assert s[3..][1..] == s[4..]; }
    assert KeepTruthy(s[2..]) == KeepOne(s[2]) + KeepTruthy(s[3..]) by { assert s[2..][1..] == s[3..]; }
    assert KeepTruthy(s[1..]) == KeepOne(s[1]) + KeepTruthy(s[2..]) by { assert s[1..][1..] == s[2..]; }
  }

  /** `full_address`. */
  function FullAddress(u: User): string
  {
    Join(KeepTruthy(Slots(u)), " - ")
  }

  /** A join of a non-empty list starts with its first element. */
  lemma JoinStartsWithFirst(parts: seq<string>, sep: string)
    requires |parts| >= 1
    ensures HasPrefix(parts[0], Join(parts, sep))
  {
    if |parts| > 1 {
      assert Join(parts, sep) == parts[0] + (sep + Join(parts[1..], sep));
    }
  }

  /**
   * A set street opens the line, followed by a comma and the number, or the
   * text "None" when there is no number.
   */
  lemma StreetPart(u: User)
    requires Truthy(u.street)
    ensures HasPrefix(u.street.value + ", " + Render(u.number), FullAddress(u))
    ensures u.number.None? ==> HasPrefix(u.street.value + ", None", FullAddress(u))
  {
    var kept := KeepTruthy(Slots(u));
    assert kept == [u.street.value + ", " + Render(u.number)] + KeepTruthy(Slots(u)[1..]);
    JoinStartsWithFirst(kept, " - ");
  }

  /** A set city gives a "city/state" part, with "None" for a missing state. */
  lemma CityPart(u: User)
    requires Truthy(u.city)
    ensures u.city.value + "/" + Render(u.state) in KeepTruthy(Slots(u))
  {
    KeepTruthyFive(Slots(u));
  }

  /** Without a street the number is not shown at all, and without a city neither is the state. */
  lemma DependentParts(u: User, number: Option<string>, state: Option<string>)
    ensures !Truthy(u.street) ==> FullAddress(u.(number := number)) == FullAddress(u)
    ensures !Truthy(u.city) ==> FullAddress(u.(state := state)) == FullAddress(u)
  {
    if !Truthy(u.street) {
      assert Slots(u.(number := number)) == Slots(u);
    }
    if !Truthy(u.city) {
      assert Slots(u.(state := state)) == Slots(u);
    }
  }

  /** With every column filled in, all five parts appear in order. */
  lemma CompleteUserAddress(u: User)
    requires Truthy(u.street) && Truthy(u.number) && Truthy(u.complement) && Truthy(u.neighborhood)
    requires Truthy(u.city) && Truthy(u.state) && Truthy(u.zipCode)
    ensures FullAddress(u) == u.street.value + ", " + u.number.value + " - " + u.complement.value + " - "
      + u.neighborhood.value + " - " + u.city.value + "/" + u.state.value + " - " + "CEP: " + u.zipCode.value
  {
    var kept := KeepTruthy(Slots(u));
    KeepTruthyFive(Slots(u));
    assert kept == [u.street.value + ", " + u.number.value, u.complement.value, u.neighborhood.value,
                    u.city.value + "/" + u.state.value, "CEP: " + u.zipCode.value];
    assert Join(kept[3..], " - ") == u.city.value + "/" + u.state.value + " - " + "CEP: " + u.zipCode.value by {
      assert kept[3..][1..] == kept[4..];
    }
    assert Join(kept[2..], " - ") == u.neighborhood.value + " - " + Join(kept[3..], " - ") by {
      assert kept[2..][1..] == kept[3..];
    }
    assert Join(kept[1..], " - ") == u.complement.value + " - " + Join(kept[2..], " - ") by {
      assert kept[1..][1..] == kept[2..];
    }
  }

  /** A user with no address columns set has an empty address line. */
  lemma NoAddress(u: User)
    requires !Truthy(u.street) && !Truthy(u.complement) && !Truthy(u.neighborhood)
    requires !Truthy(u.city) && !Truthy(u.zipCode)
    ensures FullAddress(u) == ""
  {
    KeepTruthyFive(Slots(u));
  }
}
