/** The profile attributes the AI tools read from the signed-in user with
    `getattr`; an attribute the record does not have reads as None. */
module Profiles {

  import opened Common

  datatype StudentProfile = StudentProfile(
    fullName: Option<string>,
    name: Option<string>,
    rollNo: Option<string>,
    roll: Option<string>,
    dept: Option<string>,
    section: Option<string>,
    sec: Option<string>,
    series: Option<string>)
  {
    /** `section or sec` */
    function Section(): Option<string>
    {
      OrElse(section, sec)
    }

    /** `roll_no or roll or ""` */
    function RollText(): string
    {
      OrEmpty(OrElse(rollNo, roll))
    }

    /** `str(series or "")` */
    function SeriesText(): string
    {
      OrEmpty(series)
    }
  }

  /** A signed-in CR: `str(cr.id)` and the profile attributes. */
  datatype Cr = Cr(id: string, profile: StudentProfile)
}
