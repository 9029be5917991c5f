/** The case collection endpoint: GET lists every case, POST creates one. */
module CasesRoute {
  import opened Domain
  import opened Store
  import Ordering

  /** GET: every case, newest first, for any signed-in user. */
  method Get(db: Db, session: Option<Session>) returns (r: Response<seq<Case>>)
    ensures session.None? ==> r == Fail(401, "Unauthorized")
    ensures session.Some? ==> r.Ok? && r.status == 200
    ensures r.Ok? ==> multiset(r.value) == multiset(db.cases) && Ordering.NewestFirst(r.value)
  {
    if session.None? {
      return Fail(NoSession.status, NoSession.error);
    }
    var listed := Ordering.SortNewestFirst(db.cases);
    r := Ok(200, listed);
  }

  /** The JSON body of a creation request. */
  datatype CreateCaseBody = CreateCaseBody(
    patientName: Field<string>,
    patientAge: Field<int>,
    patientGender: Field<string>,
    location: Field<string>,
    latitude: Field<real>,
    longitude: Field<real>,
    description: Field<string>,
    severity: Field<string>,
    notes: Field<string>)

  /** Location, description and severity must be present and non-empty;
      severity is not checked against the four known levels. */
  predicate RequiredPresent(body: CreateCaseBody)
    ensures RequiredPresent(body) <==>
      && body.location.Value? && body.location.v != ""
      && body.description.Value? && body.description.v != ""
      && body.severity.Value? && body.severity.v != ""
  {
    !FalsyText(body.location) && !FalsyText(body.description) && !FalsyText(body.severity)
  }

  /** `value || null` for the optional text fields. */
  function TextOrNull(f: Field<string>): (o: Option<string>)
    ensures o.None? <==> FalsyText(f)
    ensures o.Some? ==> f == Value(o.value) && o.value != ""
  {
    if FalsyText(f) then None else Some(f.v)
  }

  function IntOrNull(f: Field<int>): (o: Option<int>)
    ensures o.None? <==> FalsyInt(f)
    ensures o.Some? ==> f == Value(o.value) && o.value != 0
  {
    if FalsyInt(f) then None else Some(f.v)
  }

  function RealOrNull(f: Field<real>): (o: Option<real>)
    ensures o.None? <==> FalsyReal(f)
    ensures o.Some? ==> f == Value(o.value) && o.value != 0.0
  {
    if FalsyReal(f) then None else Some(f.v)
  }

  /** The record the handler stores. `id` and `createdAt` are filled in by the
      store. */
  function NewCase(body: CreateCaseBody, directorId: string, id: string, createdAt: int): (c: Case)
    requires RequiredPresent(body)
    ensures c.status == StatusNew && c.directorId == directorId
    ensures c.paramedicId.None? && c.treatmentNotes == [] && c.medicalReport.None?
    ensures Value(c.location) == body.location && Value(c.description) == body.description
    ensures Value(c.severity) == body.severity
    ensures c.latitude.None? <==> FalsyReal(body.latitude)
    ensures c.longitude.None? <==> FalsyReal(body.longitude)
    ensures c.patientAge.None? <==> FalsyInt(body.patientAge)
    ensures c.patientName.None? <==> FalsyText(body.patientName)
    ensures c.id == id && c.createdAt == createdAt
    ensures c.patientName == TextOrNull(body.patientName) && c.patientGender == TextOrNull(body.patientGender)
    ensures c.notes == TextOrNull(body.notes) && c.patientAge == IntOrNull(body.patientAge)
    ensures c.latitude == RealOrNull(body.latitude) && c.longitude == RealOrNull(body.longitude)
  {
    Case(
      id := id,
      patientName := TextOrNull(body.patientName),
      patientAge := IntOrNull(body.patientAge),
      patientGender := TextOrNull(body.patientGender),
      location := body.location.v,
      latitude := RealOrNull(body.latitude),
      longitude := RealOrNull(body.longitude),
      description := body.description.v,
      severity := body.severity.v,
      notes := TextOrNull(body.notes),
      status := StatusNew,
      directorId := directorId,
      paramedicId := None,
      createdAt := createdAt,
      treatmentNotes := [],
      medicalReport := None)
  }

  /** POST: a medical director creates a case. */
  method Post(db: Db, session: Option<Session>, body: CreateCaseBody, newId: string, now: int)
      returns (r: Response<Case>)
    modifies db
    ensures db.users == old(db.users)
    ensures session.None? ==> r == Fail(401, "Unauthorized")
    ensures session.Some? && session.value.role != MedicalDirector ==> r == Fail(403, "Insufficient permissions")
    ensures Guard(session, MedicalDirector).None? && !RequiredPresent(body) ==> r == Fail(400, "Missing required fields")
    ensures r.Ok? <==> Guard(session, MedicalDirector).None? && RequiredPresent(body)
    ensures r.Fail? ==> db.cases == old(db.cases)
    ensures r.Ok? ==> r.status == 201 && r.value == NewCase(body, session.value.userId, newId, now)
                      && db.cases == old(db.cases) + [r.value]
  {
    var denied := Guard(session, MedicalDirector);
    if denied.Some? {
      return Fail(denied.value.status, denied.value.error);
    }
    if !RequiredPresent(body) {
      return Fail(400, "Missing required fields");
    }
    var created := NewCase(body, session.value.userId, newId, now);
    db.cases := db.cases + [created];
    r := Ok(201, created);
  }
}
