/** The browser's local storage as the data layer uses it: one typed value per key. */
module Storage {
  import opened Wrappers
  import opened Records

  /**
   * One field per key; None means the key is absent. The JSON text the
   * browser holds is replaced by the typed value it encodes.
   */
  class LocalStore {
    var authUser: Option<Session>                  // 'auth_user'
    var students: Option<seq<StudentRecord>>       // 'students'
    var recruiters: Option<seq<RecruiterRecord>>   // 'recruiters'
    var companyJobs: Option<seq<Job>>              // 'company_jobs'
    var applications: Option<seq<Application>>     // 'applications'
    var jobApplications: Option<map<string, bool>> // 'job-applications'
    var shoppingCart: Option<map<string, nat>>     // 'shopping-cart'

    /** An empty store: no key is present. */
    constructor ()
      ensures authUser.None? && students.None? && recruiters.None? && companyJobs.None?
      ensures applications.None? && jobApplications.None? && shoppingCart.None?
    {
      authUser, students, recruiters, companyJobs := None, None, None, None;
      applications, jobApplications, shoppingCart := None, None, None;
    }

    /** `JSON.parse(getItem('students') || '[]')`. */
    function Students(): (s: seq<StudentRecord>)
      reads this
      ensures students.None? ==> s == []
      ensures students.Some? ==> s == students.value
    {
      students.GetOr([])
    }

    /** `JSON.parse(getItem('recruiters') || '[]')`. */
    function Recruiters(): (s: seq<RecruiterRecord>)
      reads this
      ensures recruiters.None? ==> s == []
      ensures recruiters.Some? ==> s == recruiters.value
    {
      recruiters.GetOr([])
    }

    /** `JSON.parse(getItem('company_jobs') || '[]')`. */
    function Jobs(): (s: seq<Job>)
      reads this
      ensures companyJobs.None? ==> s == []
      ensures companyJobs.Some? ==> s == companyJobs.value
    {
      companyJobs.GetOr([])
    }

    /** `JSON.parse(getItem('applications') || '[]')`. */
    function Applications(): (s: seq<Application>)
      reads this
      ensures applications.None? ==> s == []
      ensures applications.Some? ==> s == applications.value
    {
      applications.GetOr([])
    }
  }
}
