/** The director's new-case form: its fields, the checks made before the
    request is sent, the request body built from the fields, and the reset
    after a successful creation. */
module CaseForm {
  import opened Domain
  import Strings
  import CasesRoute

  /** What the form holds. The age is the text of its input; the
      coordinates come from the map picker. */
  datatype FormData = FormData(
    patientName: string,
    patientAge: string,
    patientGender: string,
    location: string,
    latitude: real,
    longitude: real,
    description: string,
    severity: string,
    notes: string)

  const InitialForm := FormData("", "", "", "", 0.0, 0.0, "", "MEDIUM", "")

  /** The inputs wired to the generic change handler. The location input is
      read-only: only the map picker sets it. */
  datatype TextField = PatientName | PatientAge | PatientGender | Severity | Description | Notes

  function TextOf(d: FormData, field: TextField): string {
    match field
    case PatientName => d.patientName
    case PatientAge => d.patientAge
    case PatientGender => d.patientGender
    case Severity => d.severity
    case Description => d.description
    case Notes => d.notes
  }

  /** The form after typing into one input: that field takes the value, all
      other fields, the location and the coordinates included, stay. */
  function WithText(d: FormData, field: TextField, value: string): (r: FormData)
    ensures TextOf(r, field) == value
    ensures forall f :: f != field ==> TextOf(r, f) == TextOf(d, f)
    ensures r.location == d.location && r.latitude == d.latitude && r.longitude == d.longitude
  {
    match field
    case PatientName => d.(patientName := value)
    case PatientAge => d.(patientAge := value)
    case PatientGender => d.(patientGender := value)
    case Severity => d.(severity := value)
    case Description => d.(description := value)
    case Notes => d.(notes := value)
  }

  /** The form after a place is picked on the map: only the location and the
      coordinates change. */
  function WithLocation(d: FormData, address: string, latitude: real, longitude: real): (r: FormData)
    ensures r.location == address && r.latitude == latitude && r.longitude == longitude
    ensures forall f :: TextOf(r, f) == TextOf(d, f)
  {
    d.(location := address, latitude := latitude, longitude := longitude)
  }

  /** No place picked, or a coordinate still at its initial zero. */
  predicate LocationMissing(d: FormData) {
    d.location == "" || d.latitude == 0.0 || d.longitude == 0.0
  }

  const LocationMessage := "Please select a valid location on the map"
  const DescriptionMessage := "Please provide an emergency description"

  /** The check made before sending: the location first, then the
      description. */
  function Validate(d: FormData): (err: Option<string>)
    ensures err.None? <==> !LocationMissing(d) && d.description != ""
    ensures LocationMissing(d) ==> err == Some(LocationMessage)
    ensures !LocationMissing(d) && d.description == "" ==> err == Some(DescriptionMessage)
  {
    if LocationMissing(d) then Some(LocationMessage)
    else if d.description == "" then Some(DescriptionMessage)
    else None
  }

  /** The submit button's disabled state: loading, or the location check
      fails. The description plays no part. */
  predicate SubmitDisabled(isLoading: bool, d: FormData)
    ensures SubmitDisabled(false, d) <==> Validate(d) == Some(LocationMessage)
    ensures !SubmitDisabled(isLoading, d) ==> !isLoading && (Validate(d).None? <==> d.description != "")
  {
    isLoading || LocationMissing(d)
  }

  lemma EnabledButtonCanStillFail()
    ensures var d := WithLocation(InitialForm, "Main St", 1.0, 1.0);
      !SubmitDisabled(false, d) && Validate(d) == Some(DescriptionMessage)
  {
  }

  /** Value of a base-10 or base-16 digit; 36 for any other character. */
  function DigitValue(c: char): nat {
    if '0' <= c <= '9' then (c - '0') as nat
    else if 'a' <= c <= 'f' then (c - 'a') as nat + 10
    else if 'A' <= c <= 'F' then (c - 'A') as nat + 10
    else 36
  }

  predicate IsDigitIn(c: char, base: nat) {
    DigitValue(c) < base
  }

  /** Length of the longest prefix of `s` made of digits in `base`. */
  function DigitRun(s: string, base: nat): (n: nat)
    ensures n <= |s|
    ensures forall k :: 0 <= k < n ==> IsDigitIn(s[k], base)
    ensures n < |s| ==> !IsDigitIn(s[n], base)
  {
    if s == [] || !IsDigitIn(s[0], base) then 0 else 1 + DigitRun(s[1..], base)
  }

  /** The number the digits `d` denote in `base`, most significant first. */
  function DigitsValue(d: string, base: nat): nat {
    if d == [] then 0 else DigitsValue(d[..|d| - 1], base) * base + DigitValue(d[|d| - 1])
  }

  /** The unsigned part of parseInt: a "0x" or "0X" prefix selects base
      16, then the longest run of digits is read. None when there is none. */
  function ParseMagnitude(u: string): (r: Option<nat>)
    ensures var hex := |u| >= 2 && u[0] == '0' && (u[1] == 'x' || u[1] == 'X');
      r.None? <==> if hex then |u| == 2 || !IsDigitIn(u[2], 16) else u == [] || !IsDigitIn(u[0], 10)
  {
    var hex := |u| >= 2 && u[0] == '0' && (u[1] == 'x' || u[1] == 'X');
    var base: nat := if hex then 16 else 10;
    var digits := if hex then u[2..] else u;
    var n := DigitRun(digits, base);
    if n == 0 then None
    else
      Some(DigitsValue(digits[..n], base))
  }

  /** The signed part of parseInt: an optional sign, then the magnitude. */
  function ParseSigned(t: string): (r: Option<int>)
    ensures r.None? <==> ParseMagnitude(if t != [] && (t[0] == '-' || t[0] == '+') then t[1..] else t).None?
    ensures r.Some? && t != [] && t[0] == '-' ==> r.value <= 0
    ensures r.Some? && !(t != [] && t[0] == '-') ==> r.value >= 0
  {
    if t != [] && t[0] == '-' then
      var m := ParseMagnitude(t[1..]);
      if m.None? then None else Some(-(m.value as int))
    else
      var m := ParseMagnitude(if t != [] && t[0] == '+' then t[1..] else t);
      if m.None? then None else Some(m.value as int)
  }

  /** parseInt with no radix: leading whitespace skipped, then the signed
      number. None stands for NaN. */
  function ParseInt(s: string): (r: Option<int>)
    ensures Strings.AllWhitespace(s) ==> r.None?
  {
    ParseSigned(s[Strings.LeadingSpace(s)..])
  }

  /** Leading whitespace is skipped one character at a time. */
  lemma ParseIntSkipsWhitespace(s: string)
    requires s != [] && Strings.IsWhitespace(s[0])
    ensures ParseInt(s) == ParseInt(s[1..])
  {
    var m := Strings.LeadingSpace(s[1..]);
    assert Strings.LeadingSpace(s) == 1 + m;
    assert s[1 + m..] == s[1..][m..];
  }

  /** The decimal numeral of `n`, as a number input produces it. */
  function Decimal(n: nat): (s: string)
    ensures |s| >= 1
    ensures forall k :: 0 <= k < |s| ==> '0' <= s[k] <= '9'
  {
    if n < 10 then [('0' as int + n) as char] else Decimal(n / 10) + [('0' as int + n % 10) as char]
  }

  lemma {:induction false} DecimalValue(n: nat)
    ensures DigitsValue(Decimal(n), 10) == n
  {
    var s := Decimal(n);
    if n >= 10 {
      DecimalValue(n / 10);
      assert s[..|s| - 1] == Decimal(n / 10);
    }
  }

  /** What may follow a number without being read as part of it: not a
      digit, and not an "x" that would turn a lone "0" into a hex prefix. */
  predicate EndsNumber(rest: string) {
    rest == [] || (!IsDigitIn(rest[0], 10) && rest[0] != 'x' && rest[0] != 'X')
  }

  /** The run of digits in a rendered number stops where the number ends. */
  lemma MagnitudeOfDecimal(n: nat, rest: string)
    requires EndsNumber(rest)
    ensures ParseMagnitude(Decimal(n) + rest) == Some(n)
  {
    var d := Decimal(n);
    var s := d + rest;
    DecimalValue(n);
    assert !(|s| >= 2 && (s[1] == 'x' || s[1] == 'X')) by {
      if |d| >= 2 { assert s[1] == d[1]; }
      else if |s| >= 2 { assert s[1] == rest[0]; }
    }
    DecimalRun(d, rest);
    assert s[..|d|] == d;
  }

  /** The digit run of a numeral followed by a non-digit is the numeral. */
  lemma DecimalRun(d: string, rest: string)
    requires forall k :: 0 <= k < |d| ==> '0' <= d[k] <= '9'
    requires EndsNumber(rest)
    ensures DigitRun(d + rest, 10) == |d|
  {
    var s := d + rest;
    forall k | 0 <= k < |d| ensures IsDigitIn(s[k], 10) {
      assert s[k] == d[k];
    }
    DigitRunIs(s, 10, |d|);
  }

  /** DigitRun is the length of the digit prefix that ends at a non-digit or
      at the end of the string. */
  lemma {:induction false} DigitRunIs(s: string, base: nat, m: nat)
    requires m <= |s|
    requires forall k :: 0 <= k < m ==> IsDigitIn(s[k], base)
    requires m < |s| ==> !IsDigitIn(s[m], base)
    ensures DigitRun(s, base) == m
  {
    if m > 0 {
      DigitRunIs(s[1..], base, m - 1);
    }
  }

  /** Without leading whitespace parseInt reads the signed number at once. */
  lemma NoLeadingSpace(s: string)
    requires s != [] && !Strings.IsWhitespace(s[0])
    ensures ParseInt(s) == ParseSigned(s)
  {
    assert s[Strings.LeadingSpace(s)..] == s;
  }

  lemma MinusNegates(x: string, m: nat)
    requires ParseMagnitude(x) == Some(m)
    ensures ParseSigned("-" + x) == Some(-(m as int))
  {
    assert ("-" + x)[1..] == x;
  }

  /** Reading back a rendered number gives the number, whatever follows it. */
  lemma ParseDecimal(n: nat, rest: string)
    requires EndsNumber(rest)
    ensures ParseInt(Decimal(n) + rest) == Some(n)
  {
    MagnitudeOfDecimal(n, rest);
    NoLeadingSpace(Decimal(n) + rest);
  }

  /** The same with a minus sign in front. */
  lemma ParseNegativeDecimal(n: nat, rest: string)
    requires EndsNumber(rest)
    ensures ParseInt("-" + (Decimal(n) + rest)) == Some(-(n as int))
  {
    var x := Decimal(n) + rest;
    MagnitudeOfDecimal(n, rest);
    MinusNegates(x, n);
    assert ("-" + x)[0] == '-';
    NoLeadingSpace("-" + x);
  }

  /** The age as sent: an empty input is null, text that is not a number
      (NaN, which JSON writes as null) is null, otherwise the parsed integer. */
  function AgeField(text: string): (f: Field<int>)
    ensures text == "" ==> f == Null
    ensures text != "" && ParseInt(text).None? ==> f == Null
    ensures text != "" && ParseInt(text).Some? ==> f == Value(ParseInt(text).value)
  {
    if text == "" then Null
    else
      var parsed := ParseInt(text);
      if parsed.None? then Null else Value(parsed.value)
  }

  /** The JSON body the form posts: every field as it stands, the age
      converted. */
  function RequestBody(d: FormData): (b: CasesRoute.CreateCaseBody)
    ensures b.location == Value(d.location) && b.description == Value(d.description)
    ensures b.severity == Value(d.severity) && b.patientAge == AgeField(d.patientAge)
    ensures b.latitude == Value(d.latitude) && b.longitude == Value(d.longitude)
    ensures b.patientName == Value(d.patientName) && b.patientGender == Value(d.patientGender)
    ensures b.notes == Value(d.notes)
  {
    CasesRoute.CreateCaseBody(
      Value(d.patientName), AgeField(d.patientAge), Value(d.patientGender), Value(d.location),
      Value(d.latitude), Value(d.longitude), Value(d.description), Value(d.severity), Value(d.notes))
  }

  /** A form that passes the client check, with a severity chosen, passes the
      server's required-field check, and the stored case keeps its
      coordinates. */
  lemma ValidFormIsAccepted(d: FormData, directorId: string, id: string, now: int)
    requires Validate(d).None? && d.severity != ""
    ensures CasesRoute.RequiredPresent(RequestBody(d))
    ensures var c := CasesRoute.NewCase(RequestBody(d), directorId, id, now);
      c.latitude == Some(d.latitude) && c.longitude == Some(d.longitude) && c.location == d.location
  {
  }

  /** An age typed as a number reaches the stored case, except zero, which
      the server stores as null. */
  lemma TypedAgeIsStored(d: FormData, age: nat, directorId: string, id: string, now: int)
    requires Validate(d).None? && d.severity != "" && d.patientAge == Decimal(age)
    ensures var c := CasesRoute.NewCase(RequestBody(d), directorId, id, now);
      c.patientAge == if age == 0 then None else Some(age)
  {
    ParseDecimal(age, []);
    assert Decimal(age) + [] == Decimal(age);
  }

  /** The JSON error body of a refused request. */
  datatype ErrorBody = ErrorBody(error: Option<string>, message: Option<string>)

  /** The case endpoint reports a refusal in an `error` member only: a
      reader of that member recovers the refusal's text, a reader of
      `message` finds nothing. */
  function ServerErrorBody<T>(r: Response<T>): (b: ErrorBody)
    requires r.Fail?
    ensures b.message.None?
    ensures r.error != "" ==> RefusalMessage(b) == r.error
  {
    ErrorBody(Some(r.error), None)
  }

  /** The message the form shows for a refusal, as the component computes
      it: from the `message` member, which the endpoint never sets. */
  function RefusalMessageAsWritten(b: ErrorBody): (m: string)
    ensures b.message.Some? && b.message.value != "" ==> m == b.message.value
    ensures !(b.message.Some? && b.message.value != "") ==> m == "Failed to create case"
  {
    if b.message.Some? && b.message.value != "" then b.message.value else "Failed to create case"
  }

  /** The message read from the member the endpoint does set. */
  function RefusalMessage(b: ErrorBody): (m: string)
    ensures b.error.Some? && b.error.value != "" ==> m == b.error.value
    ensures !(b.error.Some? && b.error.value != "") ==> m == "Failed to create case"
    ensures m != ""
  {
    if b.error.Some? && b.error.value != "" then b.error.value else "Failed to create case"
  }

  /** Whatever the endpoint refuses with, the form as written shows the same
      generic text. */
  lemma RefusalReasonLost<T>(r: Response<T>)
    requires r.Fail?
    ensures RefusalMessageAsWritten(ServerErrorBody(r)) == "Failed to create case"
  {
  }

  /** A refusal the form can actually meet: the session expired before the
      request reached the endpoint, which `CasesRoute.Post` answers with 401. */
  lemma ExpiredSessionShownAfterFix()
    ensures var refusal := Response<Case>.Fail(401, "Unauthorized");
      && RefusalMessageAsWritten(ServerErrorBody(refusal)) == "Failed to create case"
      && RefusalMessage(ServerErrorBody(refusal)) == "Unauthorized"
  {
  }

  /** The outcome of the creation request. */
  datatype CreateReply = Created | CreateRefused(body: ErrorBody) | CreateUnreachable(message: string)

  class CaseFormView {
    var isLoading: bool
    var formError: string
    var caseData: FormData

    constructor ()
      ensures !isLoading && formError == "" && caseData == InitialForm
    {
      isLoading := false;
      formError := "";
      caseData := InitialForm;
    }

    method HandleChange(field: TextField, value: string)
      modifies this
      ensures caseData == WithText(old(caseData), field, value)
      ensures isLoading == old(isLoading) && formError == old(formError)
    {
      caseData := WithText(caseData, field, value);
    }

    method HandleLocationSave(address: string, latitude: real, longitude: real)
      modifies this
      ensures caseData == WithLocation(old(caseData), address, latitude, longitude)
      ensures isLoading == old(isLoading) && formError == old(formError)
    {
      caseData := WithLocation(caseData, address, latitude, longitude);
    }

    /** Submits the form; returns the body sent, or None when the client
        check stopped the request. */
    method HandleSubmit(reply: CreateReply) returns (sent: Option<CasesRoute.CreateCaseBody>)
      modifies this
      ensures !isLoading
      ensures Validate(old(caseData)).Some? ==>
                sent.None? && formError == Validate(old(caseData)).value && caseData == old(caseData)
      ensures Validate(old(caseData)).None? ==> sent == Some(RequestBody(old(caseData)))
      ensures sent.Some? && reply.Created? ==> caseData == InitialForm && formError == ""
      ensures sent.Some? && reply.CreateRefused? ==>
                caseData == old(caseData) && formError == RefusalMessage(reply.body)
      ensures sent.Some? && reply.CreateUnreachable? ==>
                caseData == old(caseData)
                && formError == if reply.message != "" then reply.message else "An error occurred while creating the case."
    {
      isLoading := true;
      formError := "";
      var invalid := Validate(caseData);
      if invalid.Some? {
        formError := invalid.value;
        isLoading := false;
        return None;
      }
      sent := Some(RequestBody(caseData));
      match reply {
        case Created =>
          caseData := InitialForm;
        case CreateRefused(body) =>
          formError := RefusalMessage(body);
        case CreateUnreachable(message) =>
          formError := if message != "" then message else "An error occurred while creating the case.";
      }
      isLoading := false;
    }
  }
}
