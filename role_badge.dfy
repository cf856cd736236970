/**
 * The role badge of the client: a colour class and a label for a role
 * string, both chosen by the same four-way case split (admin, store owner,
 * the two spellings of a plain user, anything else).
 */
module RoleBadge {
  import Constants

  /** The four cases both switches distinguish. */
  datatype RoleCase = AdminCase | OwnerCase | UserCase | OtherCase

  function CaseOf(role: string): (c: RoleCase)
    ensures c == AdminCase <==> role == Constants.Admin
    ensures c == OwnerCase <==> role == Constants.StoreOwner
    ensures c == UserCase <==> role == Constants.PlainUser || role == Constants.NormalUser
  {
    if role == Constants.Admin then AdminCase
    else if role == Constants.StoreOwner then OwnerCase
    else if role == Constants.PlainUser || role == Constants.NormalUser then UserCase
    else OtherCase
  }

  const Base: string := "px-3 py-1 rounded-full text-xs font-semibold uppercase tracking-wide"

  /** The colour part of the badge, one per case. */
  function Tone(c: RoleCase): string {
    match c
    case AdminCase => "bg-danger/20 text-danger"
    case OwnerCase => "bg-warning/20 text-warning"
    case UserCase => "bg-success/20 text-success"
    case OtherCase => "bg-gray-500/20 text-gray-400"
  }

  /** getBadgeClasses: the base classes, a space, then the case's colour. */
  function BadgeClasses(role: string): (r: string)
    ensures |r| > |Base| && r[..|Base|] == Base && r[|Base|] == ' '
  {
    var r := Base + " " + Tone(CaseOf(role));
    assert r[..|Base|] == Base;
    r
  }

  /** getRoleLabel: a display name for the three known cases, the role itself otherwise. */
  function RoleLabel(role: string): string {
    match CaseOf(role)
    case AdminCase => "Admin"
    case OwnerCase => "Store Owner"
    case UserCase => "User"
    case OtherCase => role
  }

  /** The colours tell the four cases apart: two roles share a badge class exactly when they fall in the same case. */
  lemma BadgeClassesFollowCases(a: string, b: string)
    ensures BadgeClasses(a) == BadgeClasses(b) <==> CaseOf(a) == CaseOf(b)
  {
    var ta, tb := Tone(CaseOf(a)), Tone(CaseOf(b));
    if BadgeClasses(a) == BadgeClasses(b) {
      assert (Base + " " + ta)[|Base| + 1..] == ta;
      assert (Base + " " + tb)[|Base| + 1..] == tb;
      ToneDistinct(CaseOf(a), CaseOf(b));
    }
  }

  /** Each case has its own colour: the fourth letters differ. */
  lemma ToneDistinct(c: RoleCase, d: RoleCase)
    ensures Tone(c) == Tone(d) ==> c == d
  {
    assert Tone(AdminCase)[3] == 'd' && Tone(OwnerCase)[3] == 'w';
    assert Tone(UserCase)[3] == 's' && Tone(OtherCase)[3] == 'g';
  }

  /**
   * The label follows the same cases: the three known cases each have one
   * fixed label, and any other role string is shown verbatim.
   */
  lemma LabelFollowsCases(role: string)
    ensures role == Constants.Admin ==> RoleLabel(role) == "Admin"
    ensures role == Constants.StoreOwner ==> RoleLabel(role) == "Store Owner"
    ensures role == Constants.PlainUser || role == Constants.NormalUser ==> RoleLabel(role) == "User"
    ensures CaseOf(role) == OtherCase ==> RoleLabel(role) == role
    ensures CaseOf(role) != OtherCase ==> BadgeClasses(role) != BadgeClasses("")
  {
    if CaseOf(role) != OtherCase {
      BadgeClassesFollowCases(role, "");
    }
  }

  /** Every role the backend assigns, USER_ROLES and signup's "user", gets a known badge. */
  lemma AssignedRolesKnown(role: string)
    requires role in Constants.UserRoles || role == Constants.PlainUser
    ensures CaseOf(role) != OtherCase
    ensures RoleLabel(role) in {"Admin", "Store Owner", "User"}
  {
  }

  /**
   * A label does not identify the case: the unknown role string "User" is
   * labelled like a plain user but gets the grey badge.
   */
  lemma LabelDoesNotIdentifyCase()
    ensures RoleLabel("User") == RoleLabel(Constants.NormalUser)
    ensures BadgeClasses("User") != BadgeClasses(Constants.NormalUser)
  {
    assert CaseOf("User") == OtherCase;
    BadgeClassesFollowCases("User", Constants.NormalUser);
  }
}
