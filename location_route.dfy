/** The paramedic's location update: stores the place name and coordinates on
    the signed-in paramedic's own user record. */
module LocationRoute {
  import opened Domain
  import opened Store

  datatype LocationBody = LocationBody(location: Field<string>, latitude: Field<real>, longitude: Field<real>)

  /** The place name must be a non-empty string; the coordinates must be
      present in the body, though they may be null. */
  predicate Complete(body: LocationBody)
    ensures Complete(body) <==>
      && body.location.Value? && body.location.v != ""
      && (body.latitude.Null? || body.latitude.Value?)
      && (body.longitude.Null? || body.longitude.Value?)
  {
    !FalsyText(body.location) && !body.latitude.Undefined? && !body.longitude.Undefined?
  }

  /** A present coordinate as the store keeps it: null becomes no value. */
  function Stored(f: Field<real>): (o: Option<real>)
    requires !f.Undefined?
    ensures o.None? <==> f.Null?
    ensures o.Some? ==> f == Value(o.value)
  {
    if f.Null? then None else Some(f.v)
  }

  function Relocated(u: User, body: LocationBody): (v: User)
    requires Complete(body)
    ensures v.(location := u.location, latitude := u.latitude, longitude := u.longitude) == u
    ensures v.location == Some(body.location.v)
    ensures v.latitude == Stored(body.latitude) && v.longitude == Stored(body.longitude)
  {
    u.(location := Some(body.location.v), latitude := Stored(body.latitude), longitude := Stored(body.longitude))
  }

  method Patch(db: Db, session: Option<Session>, body: LocationBody) returns (r: Response<User>)
    modifies db
    ensures db.cases == old(db.cases)
    ensures session.None? ==> r == Fail(401, "Unauthorized")
    ensures session.Some? && session.value.role != Paramedic ==> r == Fail(403, "Insufficient permissions")
    ensures Guard(session, Paramedic).None? && !Complete(body) ==> r == Fail(400, "Missing location data")
    ensures Guard(session, Paramedic).None? && Complete(body) && session.value.userId !in old(db.users)
            ==> r == Fail(500, "Failed to update location")
    ensures r.Ok? <==> Guard(session, Paramedic).None? && Complete(body) && session.value.userId in old(db.users)
    ensures r.Fail? ==> db.users == old(db.users)
    ensures r.Ok? ==> var id := session.value.userId;
                      r.status == 200 && r.value == Relocated(old(db.users)[id], body)
                      && db.users == old(db.users)[id := r.value]
  {
    var denied := Guard(session, Paramedic);
    if denied.Some? {
      return Fail(denied.value.status, denied.value.error);
    }
    if !Complete(body) {
      return Fail(400, "Missing location data");
    }
    var id := session.value.userId;
    if id !in db.users {
      return Fail(500, "Failed to update location");
    }
    var updated := Relocated(db.users[id], body);
    db.users := db.users[id := updated];
    r := Ok(200, updated);
  }

  /** Zero is a valid coordinate here: only an absent one is refused. */
  lemma ZeroCoordinatesAccepted(place: string)
    requires place != ""
    ensures Complete(LocationBody(Value(place), Value(0.0), Value(0.0)))
    ensures Complete(LocationBody(Value(place), Null, Null))
  {
  }
}
