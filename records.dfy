/**
 * The rows of the salaries table and the rows once the display columns are added.
 * Only the columns the dashboard reads are kept.
 */
module Records {
  import opened Wrappers

  /** One row of `dataset/salaries.csv`. */
  datatype Record = Record(
    workYear: int,
    experienceLevel: string,    // EN, MI, SE or EX
    jobTitle: string,
    employeeResidence: string,  // ISO 3166-1 alpha-2 country code
    remoteRatio: int,           // percentage of remote work, 0, 50 or 100 in practice
    companySize: string,        // S, M or L
    salaryInUsd: int)

  /** A row after `experience_level_pt` and `employee_residence_pt` were added to the table. */
  datatype LabeledRecord = Labeled(
    rec: Record,
    experienceLevelPt: Option<string>,  // None where pandas' `.map` yields NaN
    employeeResidencePt: string)

  /** A row of the filtered view after `company_size_pt` was added to it. */
  datatype SizedRecord = Sized(row: LabeledRecord, companySizePt: Option<string>)
}
