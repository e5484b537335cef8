/**
 * The session manager (src/services/authService.js): login against the two
 * identity collections, registration with a per-collection email check and
 * auto-login, logout, and the role predicates over the current session.
 */
module AuthService {
  import opened Wrappers
  import opened Records
  import opened Search
  import opened Storage

  const InvalidCredentials: string := "Invalid email or password"
  const EmailAlreadyRegistered: string := "Email already registered"

  // ---------------------------------------------------------------- login

  /** The session a student gets, from login or registration alike. */
  function StudentSession(s: StudentRecord): (u: Session) {
    Session(s.id, s.fullName, s.email, Student, None)
  }

  /** The session login gives a recruiter: no company fields are copied. */
  function RecruiterLoginSession(r: RecruiterRecord): (u: Session) {
    Session(r.id, r.fullName, r.email, Recruiter, None)
  }

  predicate StudentHasCredentials(s: StudentRecord, email: string, password: string) {
    s.email == email && s.password == password
  }

  predicate RecruiterHasCredentials(r: RecruiterRecord, email: string, password: string) {
    r.email == email && r.password == password
  }

  /**
   * What `login` returns or throws: both collections are searched, and the
   * first matching student is preferred to any recruiter.
   */
  function LoginOutcome(students: seq<StudentRecord>, recruiters: seq<RecruiterRecord>,
                        email: string, password: string): (r: Result<Session, string>)
    ensures r.Failure? ==> r.error == InvalidCredentials
    ensures r.Success? ==> r.value.email == email && r.value.company.None?
  {
    var student := Find(students, (s: StudentRecord) => StudentHasCredentials(s, email, password));
    var recruiter := Find(recruiters, (r: RecruiterRecord) => RecruiterHasCredentials(r, email, password));
    if student.Some? then Success(StudentSession(students[student.value]))
    else if recruiter.Some? then Success(RecruiterLoginSession(recruiters[recruiter.value]))
    else Failure(InvalidCredentials)
  }

  /** Login succeeds exactly when some record of either collection has both credentials. */
  lemma LoginSucceedsIff(students: seq<StudentRecord>, recruiters: seq<RecruiterRecord>,
                         email: string, password: string)
    ensures LoginOutcome(students, recruiters, email, password).Success? <==>
      (exists i :: 0 <= i < |students| && StudentHasCredentials(students[i], email, password)) ||
      (exists j :: 0 <= j < |recruiters| && RecruiterHasCredentials(recruiters[j], email, password))
    ensures LoginOutcome(students, recruiters, email, password).Failure? ==>
      LoginOutcome(students, recruiters, email, password).error == InvalidCredentials
  {
  }

  /**
   * A student match wins: the session is the projection of the first student
   * with both credentials, role 'student', whatever the recruiters hold.
   */
  lemma LoginStudentWins(students: seq<StudentRecord>, recruiters: seq<RecruiterRecord>,
                         email: string, password: string, i: nat)
    requires i < |students| && StudentHasCredentials(students[i], email, password)
    requires forall k :: 0 <= k < i ==> !StudentHasCredentials(students[k], email, password)
    ensures LoginOutcome(students, recruiters, email, password) == Success(StudentSession(students[i]))
    ensures LoginOutcome(students, recruiters, email, password).value.role == Student
  {
  }

  /**
   * Without a student match, the first recruiter with both credentials logs in,
   * with role 'recruiter' and no company fields.
   */
  lemma LoginRecruiterMatch(students: seq<StudentRecord>, recruiters: seq<RecruiterRecord>,
                            email: string, password: string, j: nat)
    requires forall k :: 0 <= k < |students| ==> !StudentHasCredentials(students[k], email, password)
    requires j < |recruiters| && RecruiterHasCredentials(recruiters[j], email, password)
    requires forall k :: 0 <= k < j ==> !RecruiterHasCredentials(recruiters[k], email, password)
    ensures LoginOutcome(students, recruiters, email, password) == Success(RecruiterLoginSession(recruiters[j]))
    ensures LoginOutcome(students, recruiters, email, password).value.company.None?
  {
  }

  /**
   * The session login writes is the projection of a record holding the given
   * credentials: its id, name (from fullName) and email come from that record.
   */
  lemma LoginSessionIsProjection(students: seq<StudentRecord>, recruiters: seq<RecruiterRecord>,
                                 email: string, password: string)
    requires LoginOutcome(students, recruiters, email, password).Success?
    ensures var u := LoginOutcome(students, recruiters, email, password).value;
      u.email == email &&
      ((u.role == Student &&
        exists i :: 0 <= i < |students| && StudentHasCredentials(students[i], email, password) &&
          u.id == students[i].id && u.name == students[i].fullName) ||
       (u.role == Recruiter &&
        exists j :: 0 <= j < |recruiters| && RecruiterHasCredentials(recruiters[j], email, password) &&
          u.id == recruiters[j].id && u.name == recruiters[j].fullName))
  {
  }

  /** `login`: on success the session is written under `auth_user`; on failure nothing is written. */
  method Login(store: LocalStore, email: string, password: string) returns (r: Result<Session, string>)
    modifies store`authUser
    ensures r == LoginOutcome(old(store.Students()), old(store.Recruiters()), email, password)
    ensures r.Success? ==> store.authUser == Some(r.value)
    ensures r.Failure? ==> store.authUser == old(store.authUser)
  {
    var students := store.Students();
    var recruiters := store.Recruiters();
    var student := Find(students, (s: StudentRecord) => StudentHasCredentials(s, email, password));
    var recruiter := Find(recruiters, (r: RecruiterRecord) => RecruiterHasCredentials(r, email, password));
    if student.Some? || recruiter.Some? {
      var authUser := if student.Some? then StudentSession(students[student.value])
                      else RecruiterLoginSession(recruiters[recruiter.value]);
      store.authUser := Some(authUser);
      return Success(authUser);
    }
    return Failure(InvalidCredentials);
  }

  // --------------------------------------------------------- registration

  /** No two records of a collection share an email. */
  predicate UniqueStudentEmails(s: seq<StudentRecord>) {
    forall i, j :: 0 <= i < j < |s| ==> s[i].email != s[j].email
  }

  predicate UniqueRecruiterEmails(s: seq<RecruiterRecord>) {
    forall i, j :: 0 <= i < j < |s| ==> s[i].email != s[j].email
  }

  predicate HasStudentEmail(s: StudentRecord, email: string) {
    s.email == email
  }

  predicate HasRecruiterEmail(r: RecruiterRecord, email: string) {
    r.email == email
  }

  /** The form with the id and creation time registration assigns. */
  function NewStudent(form: StudentForm, now: nat, createdAt: string): (s: StudentRecord) {
    StudentRecord(now, createdAt, form.fullName, form.email, form.password, form.extra)
  }

  function NewRecruiter(form: RecruiterForm, now: nat, createdAt: string): (s: RecruiterRecord) {
    RecruiterRecord(now, createdAt, form.fullName, form.email, form.password,
                    form.companyName, form.phoneNumber, form.companyLogo, form.extra)
  }

  /** The session registration gives a recruiter: it carries the company fields, logo defaulted. */
  function RecruiterRegistrationSession(r: RecruiterRecord): (u: Session)
    ensures u.id == r.id && u.name == r.fullName && u.email == r.email
    ensures u.role == Recruiter && u.company.Some?
    ensures u.company.value.companyName == r.companyName && u.company.value.phoneNumber == r.phoneNumber
    ensures u.company.value.companyLogo == OrDefault(r.companyLogo, PlaceholderLogo)
  {
    Session(r.id, r.fullName, r.email, Recruiter,
            Some(CompanyInfo(r.companyName, OrDefault(r.companyLogo, PlaceholderLogo), r.phoneNumber)))
  }

  /** `registerStudent` on the `students` collection: the new collection and the session, or the error. */
  function RegisterStudentOutcome(students: seq<StudentRecord>, form: StudentForm, now: nat, createdAt: string)
    : (o: Result<(seq<StudentRecord>, Session), string>)
    ensures o.Failure? ==> o.error == EmailAlreadyRegistered
    ensures o.Success? ==> |o.value.0| == |students| + 1 && o.value.0[..|students|] == students
    ensures o.Success? ==> o.value.1.role == Student && o.value.1.email == form.email && o.value.1.id == now
  {
    if Any(students, (s: StudentRecord) => HasStudentEmail(s, form.email)) then Failure(EmailAlreadyRegistered)
    else
      var record := NewStudent(form, now, createdAt);
      Success((students + [record], StudentSession(record)))
  }

  /** `registerRecruiter` on the `recruiters` collection. */
  function RegisterRecruiterOutcome(recruiters: seq<RecruiterRecord>, form: RecruiterForm, now: nat, createdAt: string)
    : (o: Result<(seq<RecruiterRecord>, Session), string>)
    ensures o.Failure? ==> o.error == EmailAlreadyRegistered
    ensures o.Success? ==> |o.value.0| == |recruiters| + 1 && o.value.0[..|recruiters|] == recruiters
    ensures o.Success? ==> o.value.1.role == Recruiter && o.value.1.email == form.email && o.value.1.id == now
  {
    if Any(recruiters, (r: RecruiterRecord) => HasRecruiterEmail(r, form.email)) then Failure(EmailAlreadyRegistered)
    else
      var record := NewRecruiter(form, now, createdAt);
      Success((recruiters + [record], RecruiterRegistrationSession(record)))
  }

  /**
   * Student registration fails, with "Email already registered", exactly when
   * a student already has the email; otherwise it appends one record carrying
   * the form, id `now`, and logs that student in.
   */
  lemma RegisterStudentSpec(students: seq<StudentRecord>, form: StudentForm, now: nat, createdAt: string)
    ensures var o := RegisterStudentOutcome(students, form, now, createdAt);
      (o.Failure? <==> exists i :: 0 <= i < |students| && students[i].email == form.email) &&
      (o.Failure? ==> o.error == EmailAlreadyRegistered) &&
      (o.Success? ==>
        var s' := o.value.0;
        |s'| == |students| + 1 && s'[..|students|] == students &&
        s'[|students|].id == now && s'[|students|].createdAt == createdAt &&
        s'[|students|].email == form.email && s'[|students|].password == form.password &&
        s'[|students|].fullName == form.fullName && s'[|students|].extra == form.extra &&
        o.value.1 == Session(now, form.fullName, form.email, Student, None))
  {
  }

  /** The same for recruiters; the session also carries companyName, phoneNumber and the defaulted logo. */
  lemma RegisterRecruiterSpec(recruiters: seq<RecruiterRecord>, form: RecruiterForm, now: nat, createdAt: string)
    ensures var o := RegisterRecruiterOutcome(recruiters, form, now, createdAt);
      (o.Failure? <==> exists i :: 0 <= i < |recruiters| && recruiters[i].email == form.email) &&
      (o.Failure? ==> o.error == EmailAlreadyRegistered) &&
      (o.Success? ==>
        var s' := o.value.0;
        |s'| == |recruiters| + 1 && s'[..|recruiters|] == recruiters &&
        s'[|recruiters|] == NewRecruiter(form, now, createdAt) &&
        o.value.1 == Session(now, form.fullName, form.email, Recruiter,
          Some(CompanyInfo(form.companyName, OrDefault(form.companyLogo, PlaceholderLogo), form.phoneNumber))))
  {
  }

  /** A successful student registration keeps the emails of `students` unique. */
  lemma RegisterStudentKeepsEmailsUnique(students: seq<StudentRecord>, form: StudentForm,
                                         now: nat, createdAt: string)
    requires UniqueStudentEmails(students)
    requires RegisterStudentOutcome(students, form, now, createdAt).Success?
    ensures UniqueStudentEmails(RegisterStudentOutcome(students, form, now, createdAt).value.0)
  {
  }

  /** A successful recruiter registration keeps the emails of `recruiters` unique. */
  lemma RegisterRecruiterKeepsEmailsUnique(recruiters: seq<RecruiterRecord>, form: RecruiterForm,
                                           now: nat, createdAt: string)
    requires UniqueRecruiterEmails(recruiters)
    requires RegisterRecruiterOutcome(recruiters, form, now, createdAt).Success?
    ensures UniqueRecruiterEmails(RegisterRecruiterOutcome(recruiters, form, now, createdAt).value.0)
  {
  }

  /** Registering a second student with the same email fails, whatever the other fields. */
  lemma SecondStudentRegistrationFails(students: seq<StudentRecord>, form1: StudentForm, form2: StudentForm,
                                       now1: nat, now2: nat, t1: string, t2: string)
    requires RegisterStudentOutcome(students, form1, now1, t1).Success?
    requires form2.email == form1.email
    ensures RegisterStudentOutcome(RegisterStudentOutcome(students, form1, now1, t1).value.0, form2, now2, t2)
            == Failure(EmailAlreadyRegistered)
  {
    var s' := RegisterStudentOutcome(students, form1, now1, t1).value.0;
    RegisterStudentSpec(students, form1, now1, t1);
    RegisterStudentSpec(s', form2, now2, t2);
    assert s'[|students|].email == form2.email;
  }

  /**
   * The check is per collection: once an email is registered as a recruiter it
   * can still register as a student where no student holds it, and the reverse.
   */
  lemma EmailCheckIsPerCollection(students: seq<StudentRecord>, recruiters: seq<RecruiterRecord>,
                                  sform: StudentForm, rform: RecruiterForm, now: nat, createdAt: string)
    requires sform.email == rform.email
    requires forall i :: 0 <= i < |students| ==> students[i].email != sform.email
    requires forall j :: 0 <= j < |recruiters| ==> recruiters[j].email != rform.email
    ensures var r' := RegisterRecruiterOutcome(recruiters, rform, now, createdAt);
      r'.Success? && (exists j :: 0 <= j < |r'.value.0| && r'.value.0[j].email == sform.email) &&
      RegisterStudentOutcome(students, sform, now, createdAt).Success?
    ensures var s' := RegisterStudentOutcome(students, sform, now, createdAt);
      s'.Success? && (exists i :: 0 <= i < |s'.value.0| && s'.value.0[i].email == rform.email) &&
      RegisterRecruiterOutcome(recruiters, rform, now, createdAt).Success?
  {
    RegisterStudentSpec(students, sform, now, createdAt);
    RegisterRecruiterSpec(recruiters, rform, now, createdAt);
    var r' := RegisterRecruiterOutcome(recruiters, rform, now, createdAt).value.0;
    var s' := RegisterStudentOutcome(students, sform, now, createdAt).value.0;
    assert r'[|recruiters|].email == sform.email;
    assert s'[|students|].email == rform.email;
  }

  /**
   * After a successful student registration, logging in with the same
   * credentials gives that student's session, role 'student'.
   */
  lemma RegisterThenLogin(students: seq<StudentRecord>, recruiters: seq<RecruiterRecord>,
                          form: StudentForm, now: nat, createdAt: string)
    requires RegisterStudentOutcome(students, form, now, createdAt).Success?
    ensures var o := RegisterStudentOutcome(students, form, now, createdAt).value;
      LoginOutcome(o.0, recruiters, form.email, form.password) == Success(o.1) &&
      o.1.role == Student && o.1.id == now
  {
    RegisterStudentSpec(students, form, now, createdAt);
    var s' := RegisterStudentOutcome(students, form, now, createdAt).value.0;
    var i := |students|;
    forall k | 0 <= k < i ensures !StudentHasCredentials(s'[k], form.email, form.password) {
      assert s'[k] == students[k];
    }
    LoginStudentWins(s', recruiters, form.email, form.password, i);
  }

  /** `registerStudent`: appends to `students` and writes the session, or throws and writes nothing. */
  method RegisterStudent(store: LocalStore, form: StudentForm, now: nat, createdAt: string)
    returns (r: Result<Session, string>)
    modifies store`students, store`authUser
    ensures var o := RegisterStudentOutcome(old(store.Students()), form, now, createdAt);
      (o.Failure? ==> r == Failure(o.error) && store.students == old(store.students) &&
                      store.authUser == old(store.authUser)) &&
      (o.Success? ==> r == Success(o.value.1) && store.students == Some(o.value.0) &&
                      store.authUser == Some(o.value.1))
  {
    var students := store.Students();
    if Any(students, (s: StudentRecord) => HasStudentEmail(s, form.email)) {
      return Failure(EmailAlreadyRegistered);
    }
    var newStudent := NewStudent(form, now, createdAt);
    students := students + [newStudent];
    store.students := Some(students);
    var authUser := StudentSession(newStudent);
    store.authUser := Some(authUser);
    return Success(authUser);
  }

  /** `registerRecruiter`: appends to `recruiters` and writes the session with company fields. */
  method RegisterRecruiter(store: LocalStore, form: RecruiterForm, now: nat, createdAt: string)
    returns (r: Result<Session, string>)
    modifies store`recruiters, store`authUser
    ensures var o := RegisterRecruiterOutcome(old(store.Recruiters()), form, now, createdAt);
      (o.Failure? ==> r == Failure(o.error) && store.recruiters == old(store.recruiters) &&
                      store.authUser == old(store.authUser)) &&
      (o.Success? ==> r == Success(o.value.1) && store.recruiters == Some(o.value.0) &&
                      store.authUser == Some(o.value.1))
  {
    var recruiters := store.Recruiters();
    if Any(recruiters, (r: RecruiterRecord) => HasRecruiterEmail(r, form.email)) {
      return Failure(EmailAlreadyRegistered);
    }
    var newRecruiter := NewRecruiter(form, now, createdAt);
    recruiters := recruiters + [newRecruiter];
    store.recruiters := Some(recruiters);
    var authUser := RecruiterRegistrationSession(newRecruiter);
    store.authUser := Some(authUser);
    return Success(authUser);
  }

  /**
   * On one store: once an email is registered as a recruiter, the same email
   * still registers as a student where no student holds it.
   */
  method RecruiterThenStudent(store: LocalStore, rform: RecruiterForm, sform: StudentForm,
                              now1: nat, now2: nat, t1: string, t2: string)
    returns (r1: Result<Session, string>, r2: Result<Session, string>)
    requires sform.email == rform.email
    requires forall i :: 0 <= i < |store.Students()| ==> store.Students()[i].email != sform.email
    requires forall j :: 0 <= j < |store.Recruiters()| ==> store.Recruiters()[j].email != rform.email
    modifies store`students, store`recruiters, store`authUser
    ensures r1.Success? && r1.value.role == Recruiter
    ensures r2.Success? && r2.value.role == Student && r2.value.email == rform.email
    ensures exists j :: 0 <= j < |store.Recruiters()| && store.Recruiters()[j].email == sform.email
    ensures store.authUser == Some(r2.value)
  {
    RegisterRecruiterSpec(store.Recruiters(), rform, now1, t1);
    r1 := RegisterRecruiter(store, rform, now1, t1);
    ghost var rs := store.Recruiters();
    assert rs[|rs| - 1].email == sform.email;
    assert store.Students() == old(store.Students());
    RegisterStudentSpec(store.Students(), sform, now2, t2);
    r2 := RegisterStudent(store, sform, now2, t2);
    assert store.Recruiters() == rs;
  }

  // --------------------------------------------------- session and roles

  /** `user?.role === role`. */
  predicate HasRole(user: Option<Session>, role: Role) {
    user.Some? && user.value.role == role
  }

  /** No session is both a student's and a recruiter's; no session has neither role but absence. */
  lemma RolesExclusive(user: Option<Session>)
    ensures !(HasRole(user, Student) && HasRole(user, Recruiter))
    ensures user.None? <==> !HasRole(user, Student) && !HasRole(user, Recruiter)
  {
  }

  /** `logout`: removes `auth_user`. */
  method Logout(store: LocalStore)
    modifies store`authUser
    ensures store.authUser.None?
  {
    store.authUser := None;
  }

  /** `getCurrentUser`: the stored session, or null. */
  method GetCurrentUser(store: LocalStore) returns (user: Option<Session>)
    ensures user == store.authUser
  {
    user := store.authUser;
  }

  method IsRecruiter(store: LocalStore) returns (b: bool)
    ensures b <==> store.authUser.Some? && store.authUser.value.role == Recruiter
  {
    var user := GetCurrentUser(store);
    b := HasRole(user, Recruiter);
  }

  method IsStudent(store: LocalStore) returns (b: bool)
    ensures b <==> store.authUser.Some? && store.authUser.value.role == Student
  {
    var user := GetCurrentUser(store);
    b := HasRole(user, Student);
  }

  /** After logout there is no current user and neither role predicate holds. */
  method LogoutThenQuery(store: LocalStore) returns (user: Option<Session>, recruiter: bool, student: bool)
    modifies store`authUser
    ensures user.None? && !recruiter && !student
  {
    Logout(store);
    user := GetCurrentUser(store);
    recruiter := IsRecruiter(store);
    student := IsStudent(store);
  }
}
