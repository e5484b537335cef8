/**
 * The job catalog (src/services/jobService.js): a one-time seed of
 * `company_jobs`, the read of the whole collection, and recruiter postings.
 */
module JobService {
  import opened Wrappers
  import opened Records
  import opened Storage

  /**
   * What `initializeStorage` leaves under `company_jobs`. `seed` is the parsed
   * fixture, or None when fetching or parsing it failed.
   */
  function InitializedJobs(stored: Option<seq<Job>>, seed: Option<seq<Job>>): (r: Option<seq<Job>>)
    ensures r.Some?
    ensures stored.Some? ==> r == stored
  {
    if stored.Some? then stored
    else match seed
      case Some(jobs) => Some(jobs)
      case None => Some([])
  }

  /** A present key is left alone; an absent one gets the seed verbatim, or [] if the seed failed. */
  lemma InitializeSpec(stored: Option<seq<Job>>, seed: Option<seq<Job>>)
    ensures stored.Some? ==> InitializedJobs(stored, seed) == stored
    ensures stored.None? && seed.Some? ==> InitializedJobs(stored, seed) == seed
    ensures stored.None? && seed.None? ==> InitializedJobs(stored, seed) == Some([])
    ensures InitializedJobs(stored, seed).Some?
  {
  }

  /** Running the initialisation again, with any seed outcome, changes nothing. */
  lemma InitializeIdempotent(stored: Option<seq<Job>>, seed: Option<seq<Job>>, seedAgain: Option<seq<Job>>)
    ensures InitializedJobs(InitializedJobs(stored, seed), seedAgain) == InitializedJobs(stored, seed)
  {
  }

  /** `initializeStorage`. */
  method InitializeStorage(store: LocalStore, seed: Option<seq<Job>>)
    modifies store`companyJobs
    ensures store.companyJobs == InitializedJobs(old(store.companyJobs), seed)
  {
    var existingJobs := store.companyJobs;
    if existingJobs.None? {
      match seed {
        case Some(data) => store.companyJobs := Some(data);
        case None => store.companyJobs := Some([]);
      }
    }
  }

  /** `getAllJobs`: the stored collection, or [] when the key is absent. */
  method GetAllJobs(store: LocalStore) returns (jobs: seq<Job>)
    ensures store.companyJobs.None? ==> jobs == []
    ensures store.companyJobs.Some? ==> jobs == store.companyJobs.value
  {
    jobs := store.Jobs();
  }

  /** The posting form fields addJob reads; salary bounds are the text the template literal renders. */
  datatype JobForm = JobForm(
    title: string, location: string, remoteWork: string, employmentType: string,
    salaryMin: string, salaryMax: string, description: string, responsibilities: string,
    requirements: string, experienceLevel: string)

  /** The recruiter context a caller passes; logo and phone may be undefined. */
  datatype RecruiterContext = RecruiterContext(
    companyName: string, companyLogo: Option<string>, email: string, phoneNumber: Option<string>)

  /** The record addJob builds from the form and the recruiter, with id `now`. */
  function NewJob(form: JobForm, recruiter: RecruiterContext, now: nat): (job: Job)
    ensures job.id == now && job.jobTitle == form.title && job.location == form.location
    ensures job.remoteOrOnsite in {"Remote", "Onsite"} && job.fulltimeOrParttime in {"Fulltime", "Part-time"}
    ensures job.contactInformation == Contact(recruiter.phoneNumber, recruiter.email)
  {
    Job(
      id := now,
      companyLogo := OrDefault(recruiter.companyLogo, PlaceholderLogo),
      jobTitle := form.title,
      companyName := recruiter.companyName,
      remoteOrOnsite := if form.remoteWork == "yes" then "Remote" else "Onsite",
      location := form.location,
      fulltimeOrParttime := if form.employmentType == "full-time" then "Fulltime" else "Part-time",
      salary := form.salaryMin + " - " + form.salaryMax,
      jobDescription := form.description,
      jobResponsibility := form.responsibilities,
      educationalRequirements := form.requirements,
      experiences := form.experienceLevel + " level position",
      contactInformation := Contact(recruiter.phoneNumber, recruiter.email))
  }

  /**
   * The fixed mappings of a posting: 'Remote' only for remoteWork 'yes' (so
   * 'hybrid' and 'no' are 'Onsite'), 'Fulltime' only for 'full-time', the salary
   * range and experience texts, the defaulted logo and the recruiter's contact.
   */
  lemma NewJobMapping(form: JobForm, recruiter: RecruiterContext, now: nat)
    ensures var job := NewJob(form, recruiter, now);
      (job.remoteOrOnsite == "Remote" <==> form.remoteWork == "yes") &&
      (job.remoteOrOnsite == "Onsite" <==> form.remoteWork != "yes") &&
      (job.fulltimeOrParttime == "Fulltime" <==> form.employmentType == "full-time") &&
      (job.fulltimeOrParttime == "Part-time" <==> form.employmentType != "full-time") &&
      job.salary == form.salaryMin + " - " + form.salaryMax &&
      job.experiences == form.experienceLevel + " level position" &&
      job.companyLogo == OrDefault(recruiter.companyLogo, PlaceholderLogo) &&
      job.contactInformation.phone == recruiter.phoneNumber &&
      job.contactInformation.email == recruiter.email &&
      job.id == now && job.jobTitle == form.title && job.companyName == recruiter.companyName
  {
  }

  /** The hybrid option of the posting form is recorded as an on-site job. */
  lemma HybridIsOnsite(form: JobForm, recruiter: RecruiterContext, now: nat)
    requires form.remoteWork == "hybrid"
    ensures NewJob(form, recruiter, now).remoteOrOnsite == "Onsite"
  {
  }

  /** `addJob`: appends the new record to the collection and returns it. */
  method AddJob(store: LocalStore, form: JobForm, recruiter: RecruiterContext, now: nat) returns (job: Job)
    modifies store`companyJobs
    ensures job == NewJob(form, recruiter, now)
    ensures store.companyJobs == Some(old(store.Jobs()) + [job])
    ensures |store.Jobs()| == |old(store.Jobs())| + 1
    ensures store.Jobs()[..|old(store.Jobs())|] == old(store.Jobs())
    ensures store.Jobs()[|store.Jobs()| - 1] == job
  {
    var jobs := GetAllJobs(store);
    job := NewJob(form, recruiter, now);
    jobs := jobs + [job];
    store.companyJobs := Some(jobs);
  }

  /** Seeding an empty store and reading it back gives the fixture, in fixture order. */
  method SeedThenRead(store: LocalStore, seed: seq<Job>) returns (jobs: seq<Job>)
    requires store.companyJobs.None?
    modifies store`companyJobs
    ensures jobs == seed
  {
    InitializeStorage(store, Some(seed));
    jobs := GetAllJobs(store);
  }

  /** A posting read back is the last job, and the collection grew by one. */
  method AddThenRead(store: LocalStore, form: JobForm, recruiter: RecruiterContext, now: nat)
    returns (job: Job, jobs: seq<Job>)
    modifies store`companyJobs
    ensures job == NewJob(form, recruiter, now)
    ensures jobs == old(store.Jobs()) + [job]
    ensures |jobs| == |old(store.Jobs())| + 1 && jobs[|jobs| - 1] == job
    ensures job.salary == form.salaryMin + " - " + form.salaryMax
  {
    job := AddJob(store, form, recruiter, now);
    jobs := GetAllJobs(store);
  }
}
