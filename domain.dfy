/** Entities shared by the dispatch application's server routes and client pages. */
module Domain {

  datatype Option<+T> = None | Some(value: T)

  /** One field of a JSON request body: left out, explicitly null, or a value. */
  datatype Field<+T> = Undefined | Null | Value(v: T)

  /** JavaScript truthiness of a string field: absent, null and "" are falsy. */
  predicate FalsyText(f: Field<string>) {
    f.Undefined? || f.Null? || f.v == ""
  }

  /** JavaScript truthiness of a numeric field: absent, null and 0 are falsy. */
  predicate FalsyInt(f: Field<int>) {
    f.Undefined? || f.Null? || f.v == 0
  }

  predicate FalsyReal(f: Field<real>) {
    f.Undefined? || f.Null? || f.v == 0.0
  }

  const DirectorRoleName := "MEDICAL_DIRECTOR"
  const ParamedicRoleName := "PARAMEDIC"

  datatype RoleTag = MedicalDirector | Paramedic | Other(name: string)

  /** A user role. The role is a free string in the session; the two names the
      application knows get their own constructors, every other string is Other. */
  type Role = r: RoleTag | r.Other? ==> r.name != DirectorRoleName && r.name != ParamedicRoleName
    witness MedicalDirector

  function RoleName(r: Role): (s: string)
    ensures s == DirectorRoleName <==> r == MedicalDirector
    ensures s == ParamedicRoleName <==> r == Paramedic
  {
    match r
    case MedicalDirector => DirectorRoleName
    case Paramedic => ParamedicRoleName
    case Other(name) => name
  }

  /** Reads the role string carried by a session or token. */
  function RoleOf(s: string): (r: Role)
    ensures RoleName(r) == s
  {
    if s == DirectorRoleName then MedicalDirector
    else if s == ParamedicRoleName then Paramedic
    else Other(s)
  }

  lemma RoleOfName(r: Role)
    ensures RoleOf(RoleName(r)) == r
  {
  }

  /** The authenticated user of a server session. */
  datatype Session = Session(userId: string, role: Role)

  const StatusNew := "NEW"
  const StatusAssigned := "ASSIGNED"
  const StatusInProgress := "IN_PROGRESS"
  const StatusCompleted := "COMPLETED"

  /** Timestamps are milliseconds since the epoch. */
  datatype TreatmentNote = TreatmentNote(id: string, content: string, timestamp: int)

  datatype MedicalReport = MedicalReport(
    id: string,
    treatmentSummary: string,
    patientStatus: string,
    hospitalTransfer: bool,
    hospitalName: Option<string>,
    recommendations: string,
    createdAt: int)

  /** An emergency case as stored, with its treatment notes and report. */
  datatype Case = Case(
    id: string,
    patientName: Option<string>,
    patientAge: Option<int>,
    patientGender: Option<string>,
    location: string,
    latitude: Option<real>,
    longitude: Option<real>,
    description: string,
    severity: string,
    notes: Option<string>,
    status: string,
    directorId: string,
    paramedicId: Option<string>,
    createdAt: int,
    treatmentNotes: seq<TreatmentNote>,
    medicalReport: Option<MedicalReport>)

  datatype User = User(
    id: string,
    name: string,
    email: string,
    role: Role,
    availability: bool,
    location: Option<string>,
    latitude: Option<real>,
    longitude: Option<real>)

  /** What a route handler answers: a success status with its payload, or an
      error status with the message of the JSON error envelope. */
  datatype Response<+T> = Ok(status: int, value: T) | Fail(status: int, error: string)
}
