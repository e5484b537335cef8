/**
 * The application service (src/services/applicationService.js): submitting an
 * application at most once per (job, user) pair, and the resume upload checks.
 */
module ApplicationService {
  import opened Wrappers
  import opened Records
  import opened Search
  import opened Decimal
  import opened Storage

  const AlreadyApplied: string := "You have already applied for this position"
  const SubmitFailed: string := "Failed to submit application"
  const Submitted: string := "Application submitted successfully"
  const NoFileProvided: string := "No file provided"
  const FileTooLarge: string := "File size exceeds 10MB limit"

  /** 10 MiB, the largest resume accepted. */
  const MaxResumeSize: nat := 10 * 1024 * 1024

  /** The acknowledgement a successful submission resolves to. */
  datatype Ack = Ack(success: bool, message: string)

  /** `new Error(error.message || 'Failed to submit application')`, the catch block's rethrow. */
  function Rethrown(message: string): (m: string)
    ensures message != "" ==> m == message
    ensures message == "" ==> m == SubmitFailed
  {
    if message != "" then message else SubmitFailed
  }

  /** `'app_' + Date.now()`. */
  function ApplicationId(now: nat): (id: string) {
    "app_" + Digits(now)
  }

  /** Applications submitted at different times get different ids. */
  lemma ApplicationIdInjective(now1: nat, now2: nat)
    requires ApplicationId(now1) == ApplicationId(now2)
    ensures now1 == now2
  {
    assert Digits(now1) == ApplicationId(now1)[4..];
    assert Digits(now2) == ApplicationId(now2)[4..];
    DigitsInjective(now1, now2);
  }

  /** The record stored for a submission: the form, a fresh id, status pending and the date. */
  function NewApplication(form: ApplicationForm, now: nat, applicationDate: string): (a: Application)
    ensures a.status == Pending && a.applicationDate == applicationDate
    ensures a.jobId == form.jobId && a.userId == form.userId && a.fields == form.fields
    ensures |a.id| > 4 && a.id[..4] == "app_"
  {
    Application(ApplicationId(now), form.jobId, form.userId, form.fields, Pending, applicationDate)
  }

  /** No two records share both jobId and userId. */
  predicate AtMostOnePerPair(apps: seq<Application>) {
    forall i, j :: 0 <= i < j < |apps| ==>
      !(apps[i].jobId == apps[j].jobId && apps[i].userId == apps[j].userId)
  }

  /** The record is for this job and this user. */
  predicate IsPair(a: Application, jobId: string, userId: nat) {
    a.jobId == jobId && a.userId == userId
  }

  predicate HasApplied(apps: seq<Application>, jobId: string, userId: nat) {
    exists i :: 0 <= i < |apps| && IsPair(apps[i], jobId, userId)
  }

  /** What `submitApplication` does to the `applications` collection. */
  function SubmitOutcome(apps: seq<Application>, form: ApplicationForm, now: nat, applicationDate: string)
    : (o: Result<seq<Application>, string>)
    ensures o.Failure? ==> o.error == AlreadyApplied
    ensures o.Success? ==> |o.value| == |apps| + 1 && o.value[..|apps|] == apps
    ensures o.Success? ==> o.value[|apps|].status == Pending
  {
    if Any(apps, (a: Application) => IsPair(a, form.jobId, form.userId))
    then Failure(Rethrown(AlreadyApplied))
    else Success(apps + [NewApplication(form, now, applicationDate)])
  }

  /**
   * A submission is rejected, with the duplicate message, exactly when the pair
   * has applied; otherwise one pending record with an `app_` id and the form's
   * data is appended and the earlier records are kept.
   */
  lemma SubmitSpec(apps: seq<Application>, form: ApplicationForm, now: nat, applicationDate: string)
    ensures var o := SubmitOutcome(apps, form, now, applicationDate);
      (o.Failure? <==> HasApplied(apps, form.jobId, form.userId)) &&
      (o.Failure? ==> o.error == AlreadyApplied) &&
      (o.Success? ==>
        |o.value| == |apps| + 1 && o.value[..|apps|] == apps &&
        var a := o.value[|apps|];
        a.jobId == form.jobId && a.userId == form.userId && a.fields == form.fields &&
        a.status == Pending && a.applicationDate == applicationDate &&
        |a.id| > 4 && a.id[..4] == "app_")
  {
  }

  /** A submission keeps at most one record per (jobId, userId). */
  lemma SubmitKeepsAtMostOnePerPair(apps: seq<Application>, form: ApplicationForm,
                                    now: nat, applicationDate: string)
    requires AtMostOnePerPair(apps)
    ensures var o := SubmitOutcome(apps, form, now, applicationDate);
      o.Success? ==> AtMostOnePerPair(o.value)
  {
  }

  /** Submitting twice for the same pair: the second attempt is rejected. */
  lemma SecondSubmitRejected(apps: seq<Application>, form1: ApplicationForm, form2: ApplicationForm,
                             now1: nat, now2: nat, d1: string, d2: string)
    requires SubmitOutcome(apps, form1, now1, d1).Success?
    requires form2.jobId == form1.jobId && form2.userId == form1.userId
    ensures SubmitOutcome(SubmitOutcome(apps, form1, now1, d1).value, form2, now2, d2) == Failure(AlreadyApplied)
  {
    var s' := SubmitOutcome(apps, form1, now1, d1).value;
    SubmitSpec(apps, form1, now1, d1);
    SubmitSpec(s', form2, now2, d2);
    assert s'[|apps|].jobId == form2.jobId;
  }

  /** `submitApplication` (the simulated delay is dropped). */
  method SubmitApplication(store: LocalStore, form: ApplicationForm, now: nat, applicationDate: string)
    returns (r: Result<Ack, string>)
    modifies store`applications
    ensures var o := SubmitOutcome(old(store.Applications()), form, now, applicationDate);
      (o.Failure? ==> r == Failure(o.error) && store.applications == old(store.applications)) &&
      (o.Success? ==> r == Success(Ack(true, Submitted)) && store.applications == Some(o.value))
  {
    var applications := store.Applications();
    var isDuplicate := Any(applications, (a: Application) => IsPair(a, form.jobId, form.userId));
    if isDuplicate {
      return Failure(Rethrown(AlreadyApplied));
    }
    applications := applications + [NewApplication(form, now, applicationDate)];
    store.applications := Some(applications);
    return Success(Ack(true, Submitted));
  }

  // --------------------------------------------------------------- resumes

  /** The part of a browser File the upload looks at. */
  datatype ResumeFile = ResumeFile(name: string, size: nat)

  datatype UploadResult = UploadResult(success: bool, fileUrl: string, fileName: string)

  /**
   * `uploadResume`: no file and files over 10 MiB are rejected; otherwise the
   * result names the file and carries `url`, the object URL the browser made.
   */
  function UploadResume(file: Option<ResumeFile>, url: string): (r: Result<UploadResult, string>)
    ensures file.None? ==> r == Failure(NoFileProvided)
    ensures file.Some? && file.value.size > MaxResumeSize ==> r == Failure(FileTooLarge)
    ensures r.Success? <==> file.Some? && file.value.size <= MaxResumeSize
    ensures r.Success? ==> r.value == UploadResult(true, url, file.value.name)
  {
    if file.None? then Failure(NoFileProvided)
    else if file.value.size > MaxResumeSize then Failure(FileTooLarge)
    else Success(UploadResult(true, url, file.value.name))
  }

  /** Exactly 10 MiB is accepted, one byte more is not; 15 MB fails and 1 MB passes. */
  lemma UploadBoundary(name: string, url: string)
    ensures UploadResume(Some(ResumeFile(name, MaxResumeSize)), url).Success?
    ensures UploadResume(Some(ResumeFile(name, MaxResumeSize + 1)), url) == Failure(FileTooLarge)
    ensures UploadResume(Some(ResumeFile(name, 15 * 1024 * 1024)), url) == Failure(FileTooLarge)
    ensures UploadResume(Some(ResumeFile(name, 1024 * 1024)), url).value.fileName == name
  {
  }
}
