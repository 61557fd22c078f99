/**
 * The kudos service of services/kudos.go: record one kudos through the store,
 * then read back the recipient's total.
 */
module KudosService {
  import opened Wrappers
  import opened KudosData

  /** Who gives kudos to whom, where (services/kudos.go:28-34). */
  datatype KudosPayload = KudosPayload(
    organizationId: string,
    toUsername: string,
    description: string,
    installationId: string,
    fromUsername: string)

  /** services/kudos.go:19-26, without CreatedAt. */
  datatype KudosResponse = KudosResponse(
    total: nat,
    description: string,
    username: string,
    from: string,
    platform: string)

  /** What a chat handler announces once kudos are recorded: who, for what, and the total. */
  datatype Announcement = Announcement(mention: string, description: string, total: nat)

  /**
   * services/kudos.go:41-71. CreateKudos never reports an error, so the call
   * fails only when the count fails. The user associations of the returned
   * kudos are never loaded, so the response's Username, From and Platform are
   * empty; a grant that was not committed still yields a response, with the
   * description of the kudos as the transaction left it and the unchanged
   * total.
   */
  method HandleKudos(payload: KudosPayload, db: Database, faults: set<Statement>) returns (r: Result<KudosResponse, DbError>)
    requires db.Valid()
    modifies db
    ensures db.Valid()
    ensures var g := Transact(old(db.State()), payload.fromUsername, payload.toUsername, payload.description, payload.installationId, faults, db.missIsError);
      && db.State() == g.tables
      && (g.error.None? ==> db.State().kudos == old(db.State().kudos) + [g.kudos])
      && (r.Failure? <==> CountKudos in faults)
      && (r.Failure? ==> r.error == Unavailable(CountKudos))
      && (r.Success? ==>
            && r.value == KudosResponse(KudusCount(db.State(), payload.installationId, payload.toUsername), g.kudos.description, "", "", "")
            && r.value.total == KudusCount(old(db.State()), payload.installationId, payload.toUsername)
                                + (if g.error.None? && payload.fromUsername == payload.toUsername then 1 else 0)
            && (g.error.None? ==> r.value.description == payload.description))
  {
    ghost var before := db.State();
    var kudos, err := db.CreateKudos(payload.fromUsername, payload.toUsername, payload.description, payload.installationId, faults);
    if err.Some? {
      // CreateKudos drops the transaction's error
      assert false;
    }
    var count := db.GetKudusCountForUser(payload.installationId, payload.toUsername, faults);
    if count.Failure? {
      return Failure(count.error);
    }
    ghost var g := Transact(before, payload.fromUsername, payload.toUsername, payload.description, payload.installationId, faults, db.missIsError);
    if g.error.None? {
      TotalAfterGrant(before, payload.fromUsername, payload.toUsername, payload.description, payload.installationId, faults, db.missIsError);
    }
    r := Success(KudosResponse(count.value, kudos.description, "", "", ""));
  }
}
