/**
 * `ParamedicProfile.is_license_valid` of profiles/models.py: a licence is
 * valid only when an expiry date is recorded and it lies strictly after
 * today's date. Today's date is a parameter (the source reads the clock).
 */
module ProfilesModels {
  import opened Wrappers

  /** A calendar date; Python compares dates by (year, month, day). */
  datatype Date = Date(year: int, month: int, day: int)

  /** `a < b` on dates. */
  predicate Before(a: Date, b: Date)
  {
    a.year < b.year
    || (a.year == b.year && (a.month < b.month || (a.month == b.month && a.day < b.day)))
  }

  /** `is_license_valid`: an expiry is recorded and has not been reached. */
  predicate IsLicenseValid(expiry: Option<Date>, today: Date): (r: bool)
    ensures r <==> expiry.Some? && expiry.value != today && !Before(expiry.value, today)
  {
    match expiry
    case None => false
    case Some(e) => Before(today, e)
  }

  /** The four cases: no expiry recorded, expiry today, expiry in the past
    * and expiry in the future. */
  lemma LicenseValidity(expiry: Option<Date>, today: Date)
    ensures expiry.None? ==> !IsLicenseValid(expiry, today)
    ensures expiry == Some(today) ==> !IsLicenseValid(expiry, today)
    ensures expiry.Some? && Before(expiry.value, today) ==> !IsLicenseValid(expiry, today)
    ensures expiry.Some? && Before(today, expiry.value) ==> IsLicenseValid(expiry, today)
    ensures IsLicenseValid(expiry, today) <==> expiry.Some? && expiry.value != today && !Before(expiry.value, today)
  {
  }

  /** A licence valid on some day was valid on every earlier day too. */
  lemma LicenseValidEarlier(expiry: Option<Date>, earlier: Date, today: Date)
    requires Before(earlier, today) && IsLicenseValid(expiry, today)
    ensures IsLicenseValid(expiry, earlier)
  {
  }
}
