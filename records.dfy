/**
 * The records the data layer keeps in local storage. Field names follow the
 * stored JSON properties (`company_logo` becomes companyLogo and so on).
 */
module Records {
  import opened Wrappers

  /** The two roles a session can carry. */
  datatype Role = Student | Recruiter

  /** The logo both services substitute when a recruiter has none. */
  const PlaceholderLogo: string := "https://via.placeholder.com/150"

  /** JavaScript's `value || fallback` on a string that may be undefined: undefined and "" are falsy. */
  function OrDefault(value: Option<string>, fallback: string): (r: string)
    ensures value.Some? && value.value != "" ==> r == value.value
    ensures value.None? || value.value == "" ==> r == fallback
  {
    if value.Some? && value.value != "" then value.value else fallback
  }

  /**
   * Student registration form values. `extra` holds the remaining form fields
   * (institution, graduation year, major, skills, links, confirmPassword), which
   * registration copies into the record unread.
   */
  datatype StudentForm = StudentForm(fullName: string, email: string, password: string, extra: map<string, string>)

  /**
   * Recruiter registration form values; the form never supplies a logo, but a
   * caller may, hence the Option. `extra` holds jobTitle, companyWebsite and confirmPassword.
   */
  datatype RecruiterForm = RecruiterForm(
    fullName: string, email: string, password: string,
    companyName: string, phoneNumber: string, companyLogo: Option<string>,
    extra: map<string, string>)

  /** A stored identity record of the `students` collection (password in plain text). */
  datatype StudentRecord = StudentRecord(
    id: nat, createdAt: string, fullName: string, email: string, password: string,
    extra: map<string, string>)

  /** A stored identity record of the `recruiters` collection. */
  datatype RecruiterRecord = RecruiterRecord(
    id: nat, createdAt: string, fullName: string, email: string, password: string,
    companyName: string, phoneNumber: string, companyLogo: Option<string>,
    extra: map<string, string>)

  /** Company fields a recruiter session carries after registration. */
  datatype CompanyInfo = CompanyInfo(companyName: string, companyLogo: string, phoneNumber: string)

  /** The value stored under `auth_user`: a projection of an identity record without its password. */
  datatype Session = Session(id: nat, name: string, email: string, role: Role, company: Option<CompanyInfo>)

  datatype Contact = Contact(phone: Option<string>, email: string)

  /** A job posting of the `company_jobs` collection. */
  datatype Job = Job(
    id: nat, companyLogo: string, jobTitle: string, companyName: string,
    remoteOrOnsite: string, location: string, fulltimeOrParttime: string, salary: string,
    jobDescription: string, jobResponsibility: string, educationalRequirements: string,
    experiences: string, contactInformation: Contact)

  datatype Status = Pending | Accepted | Rejected

  /**
   * What the application form submits: the job (its id as it appears in the
   * route), the applicant's session id and every other form field unread.
   */
  datatype ApplicationForm = ApplicationForm(jobId: string, userId: nat, fields: map<string, string>)

  /** A record of the `applications` collection. */
  datatype Application = Application(
    id: string, jobId: string, userId: nat, fields: map<string, string>,
    status: Status, applicationDate: string)
}
