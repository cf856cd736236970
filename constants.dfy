/**
 * The fixed vocabulary and thresholds of the backend: the three roles of
 * USER_ROLES and the password, name, address and rating requirements.
 */
module Constants {

  const Admin: string := "admin"
  const NormalUser: string := "normal_user"
  const StoreOwner: string := "store_owner"

  /** The role that signup assigns and two route lists admit; not one of UserRoles. */
  const PlainUser: string := "user"

  /** Object.values(USER_ROLES), in declaration order. */
  const UserRoles: seq<string> := [Admin, NormalUser, StoreOwner]

  const PasswordMinLength: nat := 8
  const PasswordMaxLength: nat := 16

  /** Declared for names, but no validator consults either bound. */
  const NameMinLength: nat := 20
  const NameMaxLength: nat := 60

  const AddressMaxLength: nat := 400

  const RatingMinValue: int := 1
  const RatingMaxValue: int := 5

  /** The character class `[A-Z]` of UPPERCASE_REGEX. */
  predicate IsUppercase(c: char) {
    'A' <= c <= 'Z'
  }

  /** The members of the character class of SPECIAL_CHAR_REGEX. */
  const SpecialChars: string := "!@#$%^&*()_+-=[]{};':\"\\|,.<>/?"

  predicate IsSpecial(c: char) {
    c in SpecialChars
  }

  /** The roles are three distinct strings, and "user" is not among them. */
  lemma RolesAreDistinct()
    ensures |UserRoles| == 3
    ensures forall i, j :: 0 <= i < j < |UserRoles| ==> UserRoles[i] != UserRoles[j]
    ensures PlainUser !in UserRoles
  {
  }

  /** The bounds are ordered, and the special class has thirty members. */
  lemma BoundsAreOrdered()
    ensures PasswordMinLength <= PasswordMaxLength
    ensures NameMinLength <= NameMaxLength
    ensures RatingMinValue <= RatingMaxValue
    ensures |SpecialChars| == 30
    ensures forall i, j :: 0 <= i < j < |SpecialChars| ==> SpecialChars[i] != SpecialChars[j]
  {
  }
}
