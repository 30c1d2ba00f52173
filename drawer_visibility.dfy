/**
 * Which navigation-drawer items a role may see (utils/DrawerVisiblity.kt): the staff-management
 * item only for admins, the monthly-report item for everyone except staff.
 */
module DrawerVisibility {
  import opened Wrappers
  import Text

  const Admin := "admin"
  const Staff := "staff"

  /** `(rawRole ?: "").trim().lowercase()`. */
  function NormalizeRole(rawRole: Option<string>): string
  {
    Text.Lower(Text.Trim(rawRole.GetOr("")))
  }

  /** A normalised role normalises to itself. */
  lemma NormalizeIdempotent(rawRole: Option<string>)
    ensures NormalizeRole(Some(NormalizeRole(rawRole))) == NormalizeRole(rawRole)
  {
    var t := Text.Trim(rawRole.GetOr(""));
    var l := Text.Lower(t);
    assert l == [] || (!Text.IsWhitespace(l[0]) && !Text.IsWhitespace(l[|l| - 1]));
    Text.TrimOfTrimmed(l);
    Text.LowerIdempotent(t);
  }

  /** (staff-management item visible, monthly-report item visible) for a raw role. */
  function Visibility(rawRole: Option<string>): (r: (bool, bool))
    ensures r.0 <==> NormalizeRole(rawRole) == Admin
    ensures r.1 <==> NormalizeRole(rawRole) != Staff
    ensures r.0 ==> r.1
    ensures rawRole.None? ==> !r.0 && r.1
  {
    var role := NormalizeRole(rawRole);
    (role == Admin, role != Staff)
  }

  /** The two drawer items; None where the menu has no such item. */
  class DrawerMenu {
    var staffItemVisible: Option<bool>
    var monthlyReportItemVisible: Option<bool>

    constructor(staffItemVisible: Option<bool>, monthlyReportItemVisible: Option<bool>)
      ensures this.staffItemVisible == staffItemVisible
      ensures this.monthlyReportItemVisible == monthlyReportItemVisible
    {
      this.staffItemVisible := staffItemVisible;
      this.monthlyReportItemVisible := monthlyReportItemVisible;
    }

    /** `apply(navView, rawRole)`: sets the visibility of the items the menu has, and only those. */
    method Apply(rawRole: Option<string>)
      modifies this
      ensures staffItemVisible.Some? <==> old(staffItemVisible).Some?
      ensures monthlyReportItemVisible.Some? <==> old(monthlyReportItemVisible).Some?
      ensures staffItemVisible.Some? ==> (staffItemVisible.value <==> NormalizeRole(rawRole) == Admin)
      ensures monthlyReportItemVisible.Some? ==>
                (monthlyReportItemVisible.value <==> NormalizeRole(rawRole) != Staff)
    {
      var v := Visibility(rawRole);
      if staffItemVisible.Some? {
        staffItemVisible := Some(v.0);
      }
      if monthlyReportItemVisible.Some? {
        monthlyReportItemVisible := Some(v.1);
      }
    }
  }
}
