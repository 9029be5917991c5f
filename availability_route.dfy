/** The paramedic's availability toggle: stores the flag on the signed-in
    paramedic's own user record. */
module AvailabilityRoute {
  import opened Domain
  import opened Store

  /** The flag as the store applies it, unvalidated: an absent field leaves
      the record as it is, a present one is stored as sent. */
  function Apply(u: User, availability: Option<bool>): (v: User)
    ensures v.(availability := u.availability) == u
    ensures availability.Some? ==> v.availability == availability.value
    ensures availability.None? ==> v == u
  {
    if availability.Some? then u.(availability := availability.value) else u
  }

  method Patch(db: Db, session: Option<Session>, availability: Option<bool>) returns (r: Response<User>)
    modifies db
    ensures db.cases == old(db.cases)
    ensures session.None? ==> r == Fail(401, "Unauthorized")
    ensures session.Some? && session.value.role != Paramedic ==> r == Fail(403, "Insufficient permissions")
    ensures r.Ok? <==> Guard(session, Paramedic).None? && session.value.userId in old(db.users)
    ensures Guard(session, Paramedic).None? && !r.Ok? ==> r == Fail(500, "Failed to toggle availability")
    ensures r.Fail? ==> db.users == old(db.users)
    ensures r.Ok? ==> var id := session.value.userId;
                      r.status == 200 && r.value == Apply(old(db.users)[id], availability)
                      && db.users == old(db.users)[id := r.value]
  {
    var denied := Guard(session, Paramedic);
    if denied.Some? {
      return Fail(denied.value.status, denied.value.error);
    }
    var id := session.value.userId;
    if id !in db.users {
      return Fail(500, "Failed to toggle availability");
    }
    var updated := Apply(db.users[id], availability);
    db.users := db.users[id := updated];
    r := Ok(200, updated);
  }

  /** The paramedic dashboard sends the negation of the flag it shows: two
      such toggles in a row restore the record. */
  lemma ToggleTwiceRestores(u: User)
    ensures Apply(Apply(u, Some(!u.availability)), Some(!Apply(u, Some(!u.availability)).availability)) == u
  {
  }
}
