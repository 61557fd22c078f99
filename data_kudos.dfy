/**
 * The relational store of data/kudos.go: five tables of records, the unique
 * columns the schema declares, the statements the functions issue, and the
 * `Database` object whose methods insert rows and count kudos.
 *
 * A statement of the persistence library either succeeds or fails; a failure
 * that is not a constraint violation (connection lost, server down) is chosen
 * by the caller through `faults`, the kinds of statement that fail during the call.
 */
module KudosData {
  import opened Wrappers

  // -----------------------------------------------------------------------
  // Records (data/kudos.go:9-70). Timestamps are left out.

  datatype Organization = Organization(id: nat, name: string)

  datatype User = User(id: nat, username: string)

  datatype InstallationUser = InstallationUser(id: nat, externalId: string, installationId: nat, userId: nat)

  datatype Installation = Installation(id: nat, installationId: string, platform: string, organizationId: nat)

  datatype Kudos = Kudos(id: nat, fromUserId: nat, toUserId: nat, description: string, installationId: nat)

  /** Go's zero values of the structs the functions declare before filling them. */
  const ZeroInstallation := Installation(0, "", "", 0)
  const ZeroInstallationUser := InstallationUser(0, "", 0, 0)
  const ZeroKudos := Kudos(0, 0, 0, "", 0)

  /** The kinds of statement the store functions send to the database. */
  datatype Statement =
    | InsertOrganization | InsertInstallation | InsertUser | InsertInstallationUser | InsertKudos
    | SelectInstallationUser | SelectInstallation | CountKudos
    | Begin | Commit                    // the transaction's BEGIN and COMMIT

  datatype DbError =
    | UniqueViolation(column: string)   // a duplicate in a `unique` column
    | RecordNotFound                    // gorm's ErrRecordNotFound from First
    | Unavailable(statement: Statement) // any other failure of that statement

  datatype Tables = Tables(
    organizations: seq<Organization>,
    installations: seq<Installation>,
    users: seq<User>,
    installationUsers: seq<InstallationUser>,
    kudos: seq<Kudos>)

  const EmptyTables := Tables([], [], [], [], [])

  // -----------------------------------------------------------------------
  // Schema invariants: serial primary keys and the unique columns
  // (data/kudos.go:11, 20, 29, 44).

  predicate SerialOrganizations(rows: seq<Organization>) {
    forall i :: 0 <= i < |rows| ==> rows[i].id == i + 1
  }

  predicate SerialInstallations(rows: seq<Installation>, base: nat) {
    forall i :: 0 <= i < |rows| ==> rows[i].id == i + base
  }

  predicate SerialUsers(rows: seq<User>, base: nat) {
    forall i :: 0 <= i < |rows| ==> rows[i].id == i + base
  }

  predicate SerialInstallationUsers(rows: seq<InstallationUser>) {
    forall i :: 0 <= i < |rows| ==> rows[i].id == i + 1
  }

  predicate SerialKudos(rows: seq<Kudos>) {
    forall i :: 0 <= i < |rows| ==> rows[i].id == i + 1
  }

  predicate NameFree(rows: seq<Organization>, name: string) {
    forall i :: 0 <= i < |rows| ==> rows[i].name != name
  }

  predicate InstallationIdFree(rows: seq<Installation>, installationId: string) {
    forall i :: 0 <= i < |rows| ==> rows[i].installationId != installationId
  }

  predicate UsernameFree(rows: seq<User>, username: string) {
    forall i :: 0 <= i < |rows| ==> rows[i].username != username
  }

  predicate ExternalIdFree(rows: seq<InstallationUser>, externalId: string) {
    forall i :: 0 <= i < |rows| ==> rows[i].externalId != externalId
  }

  /** The constraints the database itself enforces. */
  predicate WellFormed(t: Tables) {
    && SerialOrganizations(t.organizations)
    && SerialInstallations(t.installations, 1)
    && SerialUsers(t.users, 1)
    && SerialInstallationUsers(t.installationUsers)
    && SerialKudos(t.kudos)
    && (forall i, j :: 0 <= i < j < |t.organizations| ==> t.organizations[i].name != t.organizations[j].name)
    && (forall i, j :: 0 <= i < j < |t.installations| ==> t.installations[i].installationId != t.installations[j].installationId)
    && (forall i, j :: 0 <= i < j < |t.users| ==> t.users[i].username != t.users[j].username)
    && (forall i, j :: 0 <= i < j < |t.installationUsers| ==> t.installationUsers[i].externalId != t.installationUsers[j].externalId)
  }

  /**
   * What the code itself keeps true, as long as rows are only added by these
   * functions: every binding names an existing user whose username is the
   * binding's external ID, and every kudos row names an existing sender.
   */
  predicate Resolved(t: Tables) {
    && (forall i :: 0 <= i < |t.installationUsers| ==>
          1 <= t.installationUsers[i].userId <= |t.users|
          && t.users[t.installationUsers[i].userId - 1].username == t.installationUsers[i].externalId)
    && (forall i :: 0 <= i < |t.kudos| ==> 1 <= t.kudos[i].fromUserId <= |t.users|)
  }

  // -----------------------------------------------------------------------
  // Lookups by primary key (the JOIN ... ON ... = x.id clauses)

  function InstallationWithId(rows: seq<Installation>, id: nat): (r: Option<Installation>)
    ensures r.Some? ==> r.value in rows && r.value.id == id
    ensures r.None? ==> forall i :: 0 <= i < |rows| ==> rows[i].id != id
  {
    if rows == [] then None
    else if rows[0].id == id then Some(rows[0])
    else InstallationWithId(rows[1..], id)
  }

  function UserWithId(rows: seq<User>, id: nat): (r: Option<User>)
    ensures r.Some? ==> r.value in rows && r.value.id == id
    ensures r.None? ==> forall i :: 0 <= i < |rows| ==> rows[i].id != id
  {
    if rows == [] then None
    else if rows[0].id == id then Some(rows[0])
    else UserWithId(rows[1..], id)
  }

  /** With serial keys the row with key k + base is the one at index k. */
  lemma {:induction false} InstallationAtId(rows: seq<Installation>, base: nat, k: nat)
    requires SerialInstallations(rows, base) && k < |rows|
    ensures InstallationWithId(rows, k + base) == Some(rows[k])
  {
    if k > 0 {
      assert SerialInstallations(rows[1..], base + 1);
      InstallationAtId(rows[1..], base + 1, k - 1);
    }
  }

  lemma {:induction false} UserAtId(rows: seq<User>, base: nat, k: nat)
    requires SerialUsers(rows, base) && k < |rows|
    ensures UserWithId(rows, k + base) == Some(rows[k])
  {
    if k > 0 {
      assert SerialUsers(rows[1..], base + 1);
      UserAtId(rows[1..], base + 1, k - 1);
    }
  }

  /** Rows appended after the one a key lookup finds do not change what it finds. */
  lemma {:induction false} UserWithIdAppend(rows: seq<User>, more: seq<User>, id: nat)
    requires UserWithId(rows, id).Some?
    ensures UserWithId(rows + more, id) == UserWithId(rows, id)
  {
    assert (rows + more)[0] == rows[0];
    if rows[0].id != id {
      assert (rows + more)[1..] == rows[1..] + more;
      UserWithIdAppend(rows[1..], more, id);
    }
  }

  /** The binding's installation has the given external InstallationID. */
  predicate BoundTo(installations: seq<Installation>, b: InstallationUser, installationId: string) {
    match InstallationWithId(installations, b.installationId)
    case Some(inst) => inst.installationId == installationId
    case None => false
  }

  // -----------------------------------------------------------------------
  // Queries whose outcome First reports (data/kudos.go:124-125, 134)

  /** What a query for one row finds: a row, no row, or a failure of the statement. */
  datatype Lookup<T> = Found(row: T) | Missing | Failed(error: DbError)

  /** tx.Error, tx.RowsAffected and the destination struct after gorm's First. */
  datatype FirstResult<T> = FirstResult(error: Option<DbError>, rowsAffected: nat, row: T)

  /**
   * First: one row, or none. When `missIsError` holds (gorm's behaviour) no row
   * is reported as ErrRecordNotFound; otherwise as zero rows affected and no error.
   */
  function First<T>(lookup: Lookup<T>, zero: T, missIsError: bool): (r: FirstResult<T>)
    ensures r.error.None? && r.rowsAffected != 0 <==> lookup.Found?
    ensures lookup.Found? ==> r.row == lookup.row
    ensures lookup.Missing? ==> r.rowsAffected == 0 && r.row == zero && (r.error.Some? <==> missIsError)
    ensures r.error.Some? ==> (if lookup.Failed? then r.error.value == lookup.error else r.error.value == RecordNotFound)
  {
    match lookup
    case Found(row) => FirstResult(None, 1, row)
    case Missing => FirstResult(if missIsError then Some(RecordNotFound) else None, 0, zero)
    case Failed(e) => FirstResult(Some(e), 0, zero)
  }

  /** The first binding, in key order, with that external ID under an installation with that InstallationID. */
  function FirstBinding(installations: seq<Installation>, rows: seq<InstallationUser>, externalId: string, installationId: string): (r: Option<InstallationUser>)
    ensures r.Some? ==> r.value in rows && r.value.externalId == externalId && BoundTo(installations, r.value, installationId)
    ensures r.None? ==> forall i :: 0 <= i < |rows| ==> !(rows[i].externalId == externalId && BoundTo(installations, rows[i], installationId))
  {
    if rows == [] then None
    else if rows[0].externalId == externalId && BoundTo(installations, rows[0], installationId) then Some(rows[0])
    else FirstBinding(installations, rows[1..], externalId, installationId)
  }

  /** The first installation, in key order, with that InstallationID. */
  function FirstInstallation(rows: seq<Installation>, installationId: string): (r: Option<Installation>)
    ensures r.Some? ==> r.value in rows && r.value.installationId == installationId
    ensures r.None? ==> InstallationIdFree(rows, installationId)
  {
    if rows == [] then None
    else if rows[0].installationId == installationId then Some(rows[0])
    else FirstInstallation(rows[1..], installationId)
  }

  /** The query at data/kudos.go:124-125: installation_users left-joined to installations. */
  function FindInstallationUser(t: Tables, externalId: string, installationId: string, faults: set<Statement>): Lookup<InstallationUser> {
    if SelectInstallationUser in faults then Failed(Unavailable(SelectInstallationUser))
    else match FirstBinding(t.installations, t.installationUsers, externalId, installationId)
      case Some(b) => Found(b)
      case None => Missing
  }

  /** The query at data/kudos.go:134. */
  function FindInstallation(t: Tables, installationId: string, faults: set<Statement>): Lookup<Installation> {
    if SelectInstallation in faults then Failed(Unavailable(SelectInstallation))
    else match FirstInstallation(t.installations, installationId)
      case Some(i) => Found(i)
      case None => Missing
  }

  // -----------------------------------------------------------------------
  // Inserts (gorm's Create): the row gets the next key, or the statement fails.

  datatype Inserted<T> = Inserted(row: T, tables: Tables) | Rejected(error: DbError)

  function CreateOrganizationRow(t: Tables, name: string, faults: set<Statement>): (r: Inserted<Organization>)
    ensures r.Inserted? <==> InsertOrganization !in faults && NameFree(t.organizations, name)
    ensures r.Inserted? ==>
      && r.row == Organization(|t.organizations| + 1, name)
      && r.tables == t.(organizations := t.organizations + [r.row])
      && (WellFormed(t) ==> WellFormed(r.tables))
      && (Resolved(t) ==> Resolved(r.tables))
    ensures r.Rejected? ==> r.error == (if InsertOrganization in faults then Unavailable(InsertOrganization) else UniqueViolation("organizations.name"))
  {
    if InsertOrganization in faults then Rejected(Unavailable(InsertOrganization))
    else if !NameFree(t.organizations, name) then Rejected(UniqueViolation("organizations.name"))
    else
      var row := Organization(|t.organizations| + 1, name);
      Inserted(row, t.(organizations := t.organizations + [row]))
  }

  function CreateInstallationRow(t: Tables, installationId: string, platform: string, organizationId: nat, faults: set<Statement>): (r: Inserted<Installation>)
    ensures r.Inserted? <==> InsertInstallation !in faults && InstallationIdFree(t.installations, installationId)
    ensures r.Inserted? ==>
      && r.row == Installation(|t.installations| + 1, installationId, platform, organizationId)
      && r.tables == t.(installations := t.installations + [r.row])
      && (WellFormed(t) ==> WellFormed(r.tables))
      && (Resolved(t) ==> Resolved(r.tables))
    ensures r.Rejected? ==> r.error == (if InsertInstallation in faults then Unavailable(InsertInstallation) else UniqueViolation("installations.installation_id"))
  {
    if InsertInstallation in faults then Rejected(Unavailable(InsertInstallation))
    else if !InstallationIdFree(t.installations, installationId) then Rejected(UniqueViolation("installations.installation_id"))
    else
      var row := Installation(|t.installations| + 1, installationId, platform, organizationId);
      Inserted(row, t.(installations := t.installations + [row]))
  }

  function CreateUserRow(t: Tables, username: string, faults: set<Statement>): (r: Inserted<User>)
    ensures r.Inserted? <==> InsertUser !in faults && UsernameFree(t.users, username)
    ensures r.Inserted? ==>
      && r.row == User(|t.users| + 1, username)
      && r.tables == t.(users := t.users + [r.row])
      && (WellFormed(t) ==> WellFormed(r.tables))
      && (Resolved(t) ==> Resolved(r.tables))
    ensures r.Rejected? ==> r.error == (if InsertUser in faults then Unavailable(InsertUser) else UniqueViolation("users.username"))
  {
    if InsertUser in faults then Rejected(Unavailable(InsertUser))
    else if !UsernameFree(t.users, username) then Rejected(UniqueViolation("users.username"))
    else
      var row := User(|t.users| + 1, username);
      Inserted(row, t.(users := t.users + [row]))
  }

  function CreateInstallationUserRow(t: Tables, externalId: string, installationId: nat, userId: nat, faults: set<Statement>): (r: Inserted<InstallationUser>)
    ensures r.Inserted? <==> InsertInstallationUser !in faults && ExternalIdFree(t.installationUsers, externalId)
    ensures r.Inserted? ==>
      && r.row == InstallationUser(|t.installationUsers| + 1, externalId, installationId, userId)
      && r.tables == t.(installationUsers := t.installationUsers + [r.row])
      && (WellFormed(t) ==> WellFormed(r.tables))
      && (Resolved(t) && 1 <= userId <= |t.users| && t.users[userId - 1].username == externalId ==> Resolved(r.tables))
    ensures r.Rejected? ==> r.error == (if InsertInstallationUser in faults then Unavailable(InsertInstallationUser) else UniqueViolation("installation_users.external_id"))
  {
    if InsertInstallationUser in faults then Rejected(Unavailable(InsertInstallationUser))
    else if !ExternalIdFree(t.installationUsers, externalId) then Rejected(UniqueViolation("installation_users.external_id"))
    else
      var row := InstallationUser(|t.installationUsers| + 1, externalId, installationId, userId);
      Inserted(row, t.(installationUsers := t.installationUsers + [row]))
  }

  /** Kudos has no unique column; only a failure of the statement rejects it. */
  function CreateKudosRow(t: Tables, k: Kudos, faults: set<Statement>): (r: Inserted<Kudos>)
    ensures r.Inserted? <==> InsertKudos !in faults
    ensures r.Inserted? ==>
      && r.row == k.(id := |t.kudos| + 1)
      && r.tables == t.(kudos := t.kudos + [r.row])
      && (WellFormed(t) ==> WellFormed(r.tables))
      && (Resolved(t) && 1 <= k.fromUserId <= |t.users| ==> Resolved(r.tables))
    ensures r.Rejected? ==> r.error == Unavailable(InsertKudos)
  {
    if InsertKudos in faults then Rejected(Unavailable(InsertKudos))
    else
      var row := k.(id := |t.kudos| + 1);
      Inserted(row, t.(kudos := t.kudos + [row]))
  }

  // -----------------------------------------------------------------------
  // createUserIfNotExists (data/kudos.go:122-168) on the transaction's tables

  /** The binding returned (or the error) and the transaction's tables afterwards. */
  datatype Resolution = Resolution(result: Result<InstallationUser, DbError>, tables: Tables)

  /** The rows a resolution may add: a fresh user and a binding to it, nothing else. */
  predicate Extends(t: Tables, t': Tables) {
    && t'.organizations == t.organizations
    && t'.installations == t.installations
    && t'.kudos == t.kudos
    && |t.users| <= |t'.users| && t'.users[..|t.users|] == t.users
    && |t.installationUsers| <= |t'.installationUsers| && t'.installationUsers[..|t.installationUsers|] == t.installationUsers
    && (forall i :: |t.installationUsers| <= i < |t'.installationUsers| ==> t'.installationUsers[i].userId > |t.users|)
  }

  /**
   * The two inserts of data/kudos.go:139-163: a user named after the external
   * ID, then its binding to the installation row found (zero when none was).
   */
  function Enrol(t: Tables, externalId: string, installation: Installation, faults: set<Statement>): (r: Resolution)
    ensures WellFormed(t) ==> WellFormed(r.tables)
    ensures WellFormed(t) && Resolved(t) ==> Resolved(r.tables)
    ensures Extends(t, r.tables)
    ensures r.result.Success? <==>
      (InsertUser !in faults && InsertInstallationUser !in faults && UsernameFree(t.users, externalId) && ExternalIdFree(t.installationUsers, externalId))
    ensures r.result.Success? ==>
      && r.result.value == InstallationUser(|t.installationUsers| + 1, externalId, installation.id, |t.users| + 1)
      && r.tables == t.(users := t.users + [User(|t.users| + 1, externalId)],
                        installationUsers := t.installationUsers + [r.result.value])
    // a user inserted before a refused binding stays, until the transaction rolls back
    ensures r.result.Failure? ==>
      r.tables == if InsertUser !in faults && UsernameFree(t.users, externalId)
                  then t.(users := t.users + [User(|t.users| + 1, externalId)])
                  else t
  {
    match CreateUserRow(t, externalId, faults)
    case Rejected(e) => Resolution(Failure(e), t)
    case Inserted(user, t1) =>
      match CreateInstallationUserRow(t1, externalId, installation.id, user.id, faults)
      case Rejected(e) => Resolution(Failure(e), t1)
      case Inserted(binding, t2) => Resolution(Success(binding), t2)
  }

  /** The installation row First leaves in its destination: the first match, or the zero value. */
  function InstallationRow(rows: seq<Installation>, installationId: string): Installation {
    match FirstInstallation(rows, installationId)
    case Some(i) => i
    case None => ZeroInstallation
  }

  /**
   * The lookup, then (when it reports zero rows) the installation lookup and
   * the two inserts, each step stopping at the first error.
   */
  function Resolve(t: Tables, externalId: string, installationId: string, faults: set<Statement>, missIsError: bool): (r: Resolution)
    ensures WellFormed(t) ==> WellFormed(r.tables)
    ensures WellFormed(t) && Resolved(t) ==> Resolved(r.tables)
    ensures Extends(t, r.tables)
    ensures r.result.Success? ==> r.result.value in r.tables.installationUsers && r.result.value.externalId == externalId
    // found: the existing binding, nothing added
    ensures FindInstallationUser(t, externalId, installationId, faults).Found? ==>
      r == Resolution(Success(FindInstallationUser(t, externalId, installationId, faults).row), t)
    // the lookup failed, or reported no row as an error: that error, nothing added
    ensures FindInstallationUser(t, externalId, installationId, faults).Failed? ==>
      r == Resolution(Failure(FindInstallationUser(t, externalId, installationId, faults).error), t)
    ensures FindInstallationUser(t, externalId, installationId, faults).Missing? && missIsError ==>
      r == Resolution(Failure(RecordNotFound), t)
    // gorm's First: nothing is ever created
    ensures missIsError ==> r.tables == t
    // zero rows without an error: enrol the user under whatever installation row was found
    ensures FindInstallationUser(t, externalId, installationId, faults).Missing? && !missIsError ==>
      r == (if SelectInstallation in faults then Resolution(Failure(Unavailable(SelectInstallation)), t)
            else Enrol(t, externalId, InstallationRow(t.installations, installationId), faults))
  {
    var found := First(FindInstallationUser(t, externalId, installationId, faults), ZeroInstallationUser, missIsError);
    if found.error.Some? then Resolution(Failure(found.error.value), t)
    else if found.rowsAffected != 0 then Resolution(Success(found.row), t)
    else
      var installation := First(FindInstallation(t, installationId, faults), ZeroInstallation, missIsError);
      if installation.error.Some? then Resolution(Failure(installation.error.value), t)
      else Enrol(t, externalId, installation.row, faults)
  }

  // -----------------------------------------------------------------------
  // CreateKudos's transaction body (data/kudos.go:175-202)

  /** The `kudos` variable when the closure returns, the closure's error, and the transaction's tables. */
  datatype Grant = Grant(kudos: Kudos, error: Option<DbError>, tables: Tables)

  /** A binding present before a resolution is still there after it. */
  lemma ExtendsKeeps(t: Tables, t': Tables, b: InstallationUser)
    requires Extends(t, t') && b in t.installationUsers
    ensures b in t'.installationUsers
  {
    var j :| 0 <= j < |t.installationUsers| && t.installationUsers[j] == b;
    assert t'.installationUsers[..|t.installationUsers|][j] == b;
  }

  /** The kudos row of data/kudos.go:187-199: filled from the two bindings, then inserted. */
  function Award(t: Tables, sender: InstallationUser, recipient: InstallationUser, description: string, faults: set<Statement>): (g: Grant)
    ensures WellFormed(t) ==> WellFormed(g.tables)
    ensures Resolved(t) && sender in t.installationUsers ==> Resolved(g.tables)
    ensures g.error.None? <==> InsertKudos !in faults
    ensures g.error.Some? ==> g.error.value == Unavailable(InsertKudos) && g.tables == t
    ensures g.kudos == Kudos(if g.error.None? then |t.kudos| + 1 else 0, sender.userId, recipient.userId, description, sender.installationId)
    ensures g.error.None? ==> g.tables == t.(kudos := t.kudos + [g.kudos])
  {
    var k := Kudos(0, sender.userId, recipient.userId, description, sender.installationId);
    match CreateKudosRow(t, k, faults)
    case Rejected(e) => Grant(k, Some(e), t)
    case Inserted(row, t3) => Grant(row, None, t3)
  }

  /**
   * The transaction body: resolve the sender, then the recipient, then save
   * the kudos row; the first error ends the body.
   */
  function GrantTx(t: Tables, from: string, to: string, description: string, installationId: string, faults: set<Statement>, missIsError: bool): (g: Grant)
    ensures WellFormed(t) ==> WellFormed(g.tables)
    ensures WellFormed(t) && Resolved(t) ==> Resolved(g.tables)
    ensures g.error.Some? && g.kudos != ZeroKudos ==> g.error == Some(Unavailable(InsertKudos)) && g.kudos.id == 0
    ensures g.error.None? ==>
      && g.tables.kudos == t.kudos + [g.kudos]
      && g.kudos.id == |t.kudos| + 1
      && g.kudos.description == description
      && Extends(t, g.tables.(kudos := t.kudos))
    // the row names the users bound to the two external IDs, and the sender's installation
    ensures g.error.None? ==>
      exists sb, rb :: sb in g.tables.installationUsers && rb in g.tables.installationUsers
        && sb.externalId == from && rb.externalId == to
        && g.kudos.fromUserId == sb.userId && g.kudos.toUserId == rb.userId && g.kudos.installationId == sb.installationId
  {
    var sender := Resolve(t, from, installationId, faults, missIsError);
    if sender.result.Failure? then Grant(ZeroKudos, Some(sender.result.error), sender.tables)
    else
      var recipient := Resolve(sender.tables, to, installationId, faults, missIsError);
      if recipient.result.Failure? then Grant(ZeroKudos, Some(recipient.result.error), recipient.tables)
      else
        ExtendsKeeps(sender.tables, recipient.tables, sender.result.value);
        ExtendsTransitive(t, sender.tables, recipient.tables);
        Award(recipient.tables, sender.result.value, recipient.result.value, description, faults)
  }

  /**
   * gorm's Transaction around the body (data/kudos.go:175): BEGIN, the body,
   * then COMMIT when the body returned no error and ROLLBACK otherwise. When
   * BEGIN fails the body never runs; when COMMIT fails nothing is kept, but
   * the kudos is left as the body saved it, key included.
   */
  function Transact(t: Tables, from: string, to: string, description: string, installationId: string, faults: set<Statement>, missIsError: bool): (g: Grant)
    // the only outcomes: everything committed, or nothing kept
    ensures g.error.None? <==> Begin !in faults && Commit !in faults && GrantTx(t, from, to, description, installationId, faults, missIsError).error.None?
    ensures g.error.None? ==> g == GrantTx(t, from, to, description, installationId, faults, missIsError)
    ensures g.error.Some? ==> g.tables == t
    ensures g.kudos == if Begin in faults then ZeroKudos else GrantTx(t, from, to, description, installationId, faults, missIsError).kudos
    ensures WellFormed(t) ==> WellFormed(g.tables)
    ensures WellFormed(t) && Resolved(t) ==> Resolved(g.tables)
  {
    if Begin in faults then Grant(ZeroKudos, Some(Unavailable(Begin)), t)
    else
      var body := GrantTx(t, from, to, description, installationId, faults, missIsError);
      if body.error.Some? then body.(tables := t)
      else if Commit in faults then Grant(body.kudos, Some(Unavailable(Commit)), t)
      else body
  }

  // -----------------------------------------------------------------------
  // GetKudusCountForUser's join (data/kudos.go:90-95)

  /** One joined row: the binding shares the kudos' from_user_id, belongs to that installation, and its user has that username. */
  predicate JoinMatch(installations: seq<Installation>, users: seq<User>, fromUserId: nat, b: InstallationUser, installationId: string, username: string) {
    && b.userId == fromUserId
    && BoundTo(installations, b, installationId)
    && (match UserWithId(users, b.userId) case Some(u) => u.username == username case None => false)
  }

  /** The joined rows one kudos row contributes. */
  function JoinedRows(installations: seq<Installation>, users: seq<User>, fromUserId: nat, bindings: seq<InstallationUser>, installationId: string, username: string): nat {
    if bindings == [] then 0
    else (if JoinMatch(installations, users, fromUserId, bindings[0], installationId, username) then 1 else 0)
         + JoinedRows(installations, users, fromUserId, bindings[1..], installationId, username)
  }

  function CountJoin(installations: seq<Installation>, users: seq<User>, bindings: seq<InstallationUser>, ks: seq<Kudos>, installationId: string, username: string): nat {
    if ks == [] then 0
    else JoinedRows(installations, users, ks[0].fromUserId, bindings, installationId, username)
         + CountJoin(installations, users, bindings, ks[1..], installationId, username)
  }

  /** The COUNT(*) of the joined rows. */
  function KudusCount(t: Tables, installationId: string, username: string): nat {
    CountJoin(t.installations, t.users, t.installationUsers, t.kudos, installationId, username)
  }

  /** Appending a kudos row adds exactly the joined rows it contributes. */
  lemma {:induction false} CountJoinAppend(installations: seq<Installation>, users: seq<User>, bindings: seq<InstallationUser>, ks: seq<Kudos>, k: Kudos, installationId: string, username: string)
    ensures CountJoin(installations, users, bindings, ks + [k], installationId, username)
         == CountJoin(installations, users, bindings, ks, installationId, username)
          + JoinedRows(installations, users, k.fromUserId, bindings, installationId, username)
  {
    if ks != [] {
      assert (ks + [k])[1..] == ks[1..] + [k];
      CountJoinAppend(installations, users, bindings, ks[1..], k, installationId, username);
    } else {
      assert [k][1..] == [];
    }
  }

  lemma {:induction false} JoinedRowsAppend(installations: seq<Installation>, users: seq<User>, uid: nat, bs: seq<InstallationUser>, more: seq<InstallationUser>, installationId: string, username: string)
    ensures JoinedRows(installations, users, uid, bs + more, installationId, username)
         == JoinedRows(installations, users, uid, bs, installationId, username)
          + JoinedRows(installations, users, uid, more, installationId, username)
  {
    if bs == [] {
      assert bs + more == more;
    } else {
      assert (bs + more)[0] == bs[0];
      assert (bs + more)[1..] == bs[1..] + more;
      JoinedRowsAppend(installations, users, uid, bs[1..], more, installationId, username);
    }
  }

  /** Bindings none of which has that user ID contribute nothing. */
  lemma {:induction false} JoinedRowsNone(installations: seq<Installation>, users: seq<User>, uid: nat, bs: seq<InstallationUser>, installationId: string, username: string)
    requires forall i :: 0 <= i < |bs| ==> bs[i].userId != uid
    ensures JoinedRows(installations, users, uid, bs, installationId, username) == 0
  {
    if bs != [] {
      JoinedRowsNone(installations, users, uid, bs[1..], installationId, username);
    }
  }

  /** New users appended after an existing sender's row do not change what that sender's kudos contribute. */
  lemma {:induction false} JoinedRowsMoreUsers(installations: seq<Installation>, users: seq<User>, more: seq<User>, uid: nat, bs: seq<InstallationUser>, installationId: string, username: string)
    requires UserWithId(users, uid).Some?
    ensures JoinedRows(installations, users + more, uid, bs, installationId, username)
         == JoinedRows(installations, users, uid, bs, installationId, username)
  {
    UserWithIdAppend(users, more, uid);
    if bs != [] {
      JoinedRowsMoreUsers(installations, users, more, uid, bs[1..], installationId, username);
    }
  }

  /** A user with exactly one binding contributes one joined row iff that binding matches. */
  lemma {:induction false} JoinedRowsSingle(installations: seq<Installation>, users: seq<User>, uid: nat, bs: seq<InstallationUser>, j: nat, installationId: string, username: string)
    requires j < |bs| && bs[j].userId == uid
    requires forall i :: 0 <= i < |bs| && i != j ==> bs[i].userId != uid
    ensures JoinedRows(installations, users, uid, bs, installationId, username)
         == if JoinMatch(installations, users, uid, bs[j], installationId, username) then 1 else 0
  {
    if j == 0 {
      JoinedRowsNone(installations, users, uid, bs[1..], installationId, username);
    } else {
      JoinedRowsSingle(installations, users, uid, bs[1..], j - 1, installationId, username);
    }
  }

  /** Old kudos rows count the same after a resolution added fresh users and bindings. */
  lemma {:induction false} CountJoinExtends(t: Tables, t': Tables, ks: seq<Kudos>, installationId: string, username: string)
    requires WellFormed(t) && Extends(t, t')
    requires forall i :: 0 <= i < |ks| ==> 1 <= ks[i].fromUserId <= |t.users|
    ensures CountJoin(t'.installations, t'.users, t'.installationUsers, ks, installationId, username)
         == CountJoin(t.installations, t.users, t.installationUsers, ks, installationId, username)
  {
    if ks != [] {
      var uid := ks[0].fromUserId;
      var n := |t.installationUsers|;
      assert t'.installationUsers == t.installationUsers + t'.installationUsers[n..];
      assert t'.users == t.users + t'.users[|t.users|..];
      JoinedRowsAppend(t.installations, t'.users, uid, t.installationUsers, t'.installationUsers[n..], installationId, username);
      JoinedRowsNone(t.installations, t'.users, uid, t'.installationUsers[n..], installationId, username);
      UserAtId(t.users, 1, uid - 1);
      JoinedRowsMoreUsers(t.installations, t.users, t'.users[|t.users|..], uid, t.installationUsers, installationId, username);
      CountJoinExtends(t, t', ks[1..], installationId, username);
    }
  }


  lemma ExtendsTransitive(t1: Tables, t2: Tables, t3: Tables)
    requires Extends(t1, t2) && Extends(t2, t3)
    ensures Extends(t1, t3)
  {
    assert t3.users[..|t1.users|] == t3.users[..|t2.users|][..|t1.users|];
    assert t3.installationUsers[..|t1.installationUsers|] == t3.installationUsers[..|t2.installationUsers|][..|t1.installationUsers|];
    forall i | |t1.installationUsers| <= i < |t3.installationUsers|
      ensures t3.installationUsers[i].userId > |t1.users|
    {
      if i < |t2.installationUsers| {
        assert t3.installationUsers[i] == t3.installationUsers[..|t2.installationUsers|][i];
      }
    }
  }

  lemma {:induction false} FirstBindingAppend(installations: seq<Installation>, rows: seq<InstallationUser>, b: InstallationUser, externalId: string, installationId: string)
    ensures FirstBinding(installations, rows + [b], externalId, installationId)
         == if FirstBinding(installations, rows, externalId, installationId).Some? then FirstBinding(installations, rows, externalId, installationId)
            else if b.externalId == externalId && BoundTo(installations, b, installationId) then Some(b)
            else None
  {
    if rows == [] {
      assert rows + [b] == [b];
      assert [b][1..] == [];
    } else {
      assert (rows + [b])[0] == rows[0];
      assert (rows + [b])[1..] == rows[1..] + [b];
      FirstBindingAppend(installations, rows[1..], b, externalId, installationId);
    }
  }

  /**
   * Resolving the same external ID again within the transaction: a binding
   * under the installation is found again and nothing more is added; a
   * binding created while the installation was missing (it then has
   * installation key 0) is never found, and the second attempt fails because
   * the username is taken.
   */
  lemma ResolveAgain(t: Tables, externalId: string, installationId: string, faults: set<Statement>, missIsError: bool)
    requires WellFormed(t)
    requires Resolve(t, externalId, installationId, faults, missIsError).result.Success?
    ensures var s := Resolve(t, externalId, installationId, faults, missIsError);
      if BoundTo(t.installations, s.result.value, installationId)
      then Resolve(s.tables, externalId, installationId, faults, missIsError) == s
      else Resolve(s.tables, externalId, installationId, faults, missIsError).result.Failure?
  {
    if FindInstallationUser(t, externalId, installationId, faults).Missing? {
      match FirstInstallation(t.installations, installationId) {
        case Some(inst) => EnrolAgainBound(t, externalId, installationId, faults, missIsError, inst);
        case None =>
          EnrolAgainUnbound(t, externalId, installationId, faults, missIsError, Resolve(t, externalId, installationId, faults, missIsError).result.value);
      }
    }
  }

  /** A user enrolled under the installation found is found again, and nothing more is added. */
  lemma EnrolAgainBound(t: Tables, externalId: string, installationId: string, faults: set<Statement>, missIsError: bool, inst: Installation)
    requires WellFormed(t) && FindInstallationUser(t, externalId, installationId, faults).Missing?
    requires FirstInstallation(t.installations, installationId) == Some(inst)
    requires Enrol(t, externalId, inst, faults).result.Success?
    ensures var s := Enrol(t, externalId, inst, faults);
      BoundTo(t.installations, s.result.value, installationId) && Resolve(s.tables, externalId, installationId, faults, missIsError) == s
  {
    var s := Enrol(t, externalId, inst, faults);
    var b := s.result.value;
    FirstBindingAppend(t.installations, t.installationUsers, b, externalId, installationId);
    var k :| 0 <= k < |t.installations| && t.installations[k] == inst;
    InstallationAtId(t.installations, 1, k);
    assert BoundTo(t.installations, b, installationId);
  }

  /** A user enrolled while the installation was missing is not found again, and cannot be enrolled twice. */
  lemma EnrolAgainUnbound(t: Tables, externalId: string, installationId: string, faults: set<Statement>, missIsError: bool, b: InstallationUser)
    requires WellFormed(t) && FirstBinding(t.installations, t.installationUsers, externalId, installationId).None?
    requires b.externalId == externalId && b.installationId == 0
    ensures var t' := t.(users := t.users + [User(|t.users| + 1, externalId)], installationUsers := t.installationUsers + [b]);
      !BoundTo(t.installations, b, installationId) && Resolve(t', externalId, installationId, faults, missIsError).result.Failure?
  {
    var t' := t.(users := t.users + [User(|t.users| + 1, externalId)], installationUsers := t.installationUsers + [b]);
    FirstBindingAppend(t.installations, t.installationUsers, b, externalId, installationId);
    assert InstallationWithId(t.installations, 0).None?;
    assert t'.users[|t.users|].username == externalId;
    assert !UsernameFree(t'.users, externalId);
  }

  /**
   * The binding of a resolved user is the only binding of that user, so a
   * kudos row sent by that user joins once, and only when the installation
   * and the username asked for are the binding's own.
   */
  lemma SenderJoinsOnce(t: Tables, b: InstallationUser, installationId: string, username: string)
    requires WellFormed(t) && Resolved(t)
    requires b in t.installationUsers
    ensures JoinedRows(t.installations, t.users, b.userId, t.installationUsers, installationId, username)
         == if b.externalId == username && BoundTo(t.installations, b, installationId) then 1 else 0
  {
    var bs := t.installationUsers;
    var j :| 0 <= j < |bs| && bs[j] == b;
    forall i | 0 <= i < |bs| && i != j
      ensures bs[i].userId != b.userId
    {
      assert bs[i].externalId != bs[j].externalId by {
        if i < j {} else {}
      }
      assert t.users[bs[i].userId - 1].username == bs[i].externalId;
    }
    UserAtId(t.users, 1, b.userId - 1);
    JoinedRowsSingle(t.installations, t.users, b.userId, bs, j, installationId, username);
  }

  /** The number of kudos rows sent by the user with that key. */
  function SentBy(ks: seq<Kudos>, uid: nat): (n: nat)
    ensures n <= |ks|
  {
    if ks == [] then 0
    else (if ks[0].fromUserId == uid then 1 else 0) + SentBy(ks[1..], uid)
  }

  /** Bindings none of which matches contribute nothing. */
  lemma {:induction false} JoinedRowsNoMatch(installations: seq<Installation>, users: seq<User>, uid: nat, bs: seq<InstallationUser>, installationId: string, username: string)
    requires forall i :: 0 <= i < |bs| ==> !JoinMatch(installations, users, uid, bs[i], installationId, username)
    ensures JoinedRows(installations, users, uid, bs, installationId, username) == 0
  {
    if bs != [] {
      JoinedRowsNoMatch(installations, users, uid, bs[1..], installationId, username);
    }
  }

  /**
   * The joined rows of one kudos row: one when its sender is the user bound
   * to that username in that installation, none otherwise.
   */
  lemma JoinedRowsOfSender(t: Tables, uid: nat, installationId: string, username: string)
    requires WellFormed(t) && Resolved(t)
    ensures JoinedRows(t.installations, t.users, uid, t.installationUsers, installationId, username)
         == match FirstBinding(t.installations, t.installationUsers, username, installationId)
            case Some(b) => (if uid == b.userId then 1 else 0)
            case None => 0
  {
    var bs := t.installationUsers;
    var fb := FirstBinding(t.installations, bs, username, installationId);
    if fb.Some? && uid == fb.value.userId {
      SenderJoinsOnce(t, fb.value, installationId, username);
    } else {
      forall i | 0 <= i < |bs|
        ensures !JoinMatch(t.installations, t.users, uid, bs[i], installationId, username)
      {
        var b := bs[i];
        UserAtId(t.users, 1, b.userId - 1);
        if b.externalId == username && BoundTo(t.installations, b, installationId) {
          forall k | 0 <= k < |bs| && k != i
            ensures bs[k].externalId != b.externalId
          {
            if k < i {} else {}
          }
          assert fb.Some? && fb.value == b;
        }
      }
      JoinedRowsNoMatch(t.installations, t.users, uid, bs, installationId, username);
    }
  }

  lemma {:induction false} CountJoinSent(t: Tables, ks: seq<Kudos>, installationId: string, username: string)
    requires WellFormed(t) && Resolved(t)
    ensures CountJoin(t.installations, t.users, t.installationUsers, ks, installationId, username)
         == match FirstBinding(t.installations, t.installationUsers, username, installationId)
            case Some(b) => SentBy(ks, b.userId)
            case None => 0
  {
    if ks != [] {
      JoinedRowsOfSender(t, ks[0].fromUserId, installationId, username);
      CountJoinSent(t, ks[1..], installationId, username);
    }
  }

  /**
   * What GetKudusCountForUser counts: the kudos sent by the user bound to
   * that username in that installation, and nothing when there is no such
   * binding.
   */
  lemma KudusCountIsSent(t: Tables, installationId: string, username: string)
    requires WellFormed(t) && Resolved(t)
    ensures KudusCount(t, installationId, username)
         == match FirstBinding(t.installations, t.installationUsers, username, installationId)
            case Some(b) => SentBy(t.kudos, b.userId)
            case None => 0
  {
    CountJoinSent(t, t.kudos, installationId, username);
  }

  /** Saving the kudos row from a binding adds one to the count when that binding is the one the count asks for. */
  lemma AwardCount(t: Tables, t2: Tables, b: InstallationUser, recipient: InstallationUser, description: string, faults: set<Statement>, installationId: string, username: string)
    requires WellFormed(t) && Resolved(t) && WellFormed(t2) && Resolved(t2) && Extends(t, t2)
    requires b in t2.installationUsers
    requires Award(t2, b, recipient, description, faults).error.None?
    ensures KudusCount(Award(t2, b, recipient, description, faults).tables, installationId, username)
         == KudusCount(t, installationId, username) + (if b.externalId == username && BoundTo(t2.installations, b, installationId) then 1 else 0)
  {
    var g := Award(t2, b, recipient, description, faults);
    CountJoinAppend(t2.installations, t2.users, t2.installationUsers, t.kudos, g.kudos, installationId, username);
    CountJoinExtends(t, t2, t.kudos, installationId, username);
    SenderJoinsOnce(t2, b, installationId, username);
  }

  /**
   * The count after a committed grant from `from` to `to`: the count for `to`
   * grows by one exactly when the sender is the recipient, because the join
   * is on kudos.from_user_id, so the query counts kudos a user has given.
   */
  lemma TotalAfterGrant(t: Tables, from: string, to: string, description: string, installationId: string, faults: set<Statement>, missIsError: bool)
    requires WellFormed(t) && Resolved(t)
    ensures var g := GrantTx(t, from, to, description, installationId, faults, missIsError);
      g.error.None? ==> KudusCount(g.tables, installationId, to) == KudusCount(t, installationId, to) + (if from == to then 1 else 0)
  {
    if GrantTx(t, from, to, description, installationId, faults, missIsError).error.None? {
      var sender := Resolve(t, from, installationId, faults, missIsError);
      var recipient := Resolve(sender.tables, to, installationId, faults, missIsError);
      var t2 := recipient.tables;
      var b := sender.result.value;
      ExtendsTransitive(t, sender.tables, t2);
      ExtendsKeeps(sender.tables, t2, b);
      if from == to {
        ResolveAgain(t, from, installationId, faults, missIsError);
      }
      AwardCount(t, t2, b, recipient.result.value, description, faults, installationId, to);
    }
  }

  /**
   * Usernames and external IDs are unique across all installations, so an
   * external ID already bound in some installation cannot be resolved in
   * another one where it has no binding.
   */
  lemma BoundElsewhere(t: Tables, externalId: string, installationId: string, faults: set<Statement>, missIsError: bool, j: nat)
    requires WellFormed(t) && Resolved(t)
    requires j < |t.installationUsers| && t.installationUsers[j].externalId == externalId
    requires FindInstallationUser(t, externalId, installationId, faults).Missing?
    ensures Resolve(t, externalId, installationId, faults, missIsError).result.Failure?
  {
    var uid := t.installationUsers[j].userId;
    assert t.users[uid - 1].username == externalId;
    assert !UsernameFree(t.users, externalId);
  }

  // -----------------------------------------------------------------------
  // The store object (data/kudos.go:72-205)

  class Database {
    /** How First reports that no row matched: true is gorm's ErrRecordNotFound. */
    const missIsError: bool
    var organizations: seq<Organization>
    var installations: seq<Installation>
    var users: seq<User>
    var installationUsers: seq<InstallationUser>
    var kudos: seq<Kudos>

    function State(): Tables
      reads this
    {
      Tables(organizations, installations, users, installationUsers, kudos)
    }

    predicate Valid()
      reads this
    {
      WellFormed(State()) && Resolved(State())
    }

    /** An empty schema. */
    constructor (missIsError: bool)
      ensures Valid() && State() == EmptyTables && this.missIsError == missIsError
    {
      this.missIsError := missIsError;
      organizations, installations, users, installationUsers, kudos := [], [], [], [], [];
    }

    /** Rolls the tables back to a snapshot. */
    method Restore(t: Tables)
      requires WellFormed(t) && Resolved(t)
      modifies this
      ensures Valid() && State() == t
    {
      organizations, installations, users, installationUsers, kudos := t.organizations, t.installations, t.users, t.installationUsers, t.kudos;
    }

    /** data/kudos.go:72-86 */
    method CreateOrganization(name: string, faults: set<Statement>) returns (r: Result<Organization, DbError>)
      requires Valid()
      modifies this
      ensures Valid()
      ensures match CreateOrganizationRow(old(State()), name, faults)
        case Inserted(row, t) => r == Success(row) && State() == t
        case Rejected(e) => r == Failure(e) && State() == old(State())
    {
      var ins := CreateOrganizationRow(State(), name, faults);
      if ins.Rejected? {
        return Failure(ins.error);
      }
      organizations := organizations + [ins.row];
      r := Success(ins.row);
    }

    /** data/kudos.go:106-120: the InstallationID column is never set, so it is "". */
    method CreateInstallation(platform: string, organizationId: nat, faults: set<Statement>) returns (r: Result<Installation, DbError>)
      requires Valid()
      modifies this
      ensures Valid()
      ensures match CreateInstallationRow(old(State()), "", platform, organizationId, faults)
        case Inserted(row, t) => r == Success(row) && State() == t
        case Rejected(e) => r == Failure(e) && State() == old(State())
    {
      var ins := CreateInstallationRow(State(), "", platform, organizationId, faults);
      if ins.Rejected? {
        return Failure(ins.error);
      }
      installations := installations + [ins.row];
      r := Success(ins.row);
    }

    /** data/kudos.go:122-168, run inside the transaction whose tables are this object's. */
    method CreateUserIfNotExists(externalId: string, installationId: string, faults: set<Statement>) returns (r: Result<InstallationUser, DbError>)
      requires Valid()
      modifies this
      ensures Valid()
      ensures var res := Resolve(old(State()), externalId, installationId, faults, missIsError);
        r == res.result && State() == res.tables
    {
      var found := First(FindInstallationUser(State(), externalId, installationId, faults), ZeroInstallationUser, missIsError);
      if found.error.Some? {
        return Failure(found.error.value);
      }
      if found.rowsAffected != 0 {
        return Success(found.row);
      }
      var installation := First(FindInstallation(State(), installationId, faults), ZeroInstallation, missIsError);
      if installation.error.Some? {
        return Failure(installation.error.value);
      }
      var user := CreateUserRow(State(), externalId, faults);
      if user.Rejected? {
        return Failure(user.error);
      }
      users := users + [user.row];
      var binding := CreateInstallationUserRow(State(), externalId, installation.row.id, user.row.id, faults);
      if binding.Rejected? {
        return Failure(binding.error);
      }
      installationUsers := installationUsers + [binding.row];
      r := Success(binding.row);
    }

    /**
     * The closure passed to Transaction (data/kudos.go:175-202): it returns the
     * error that ends it, and leaves in `k` what the closure assigned to `kudos`.
     */
    method GrantBody(from: string, to: string, description: string, installationId: string, faults: set<Statement>) returns (k: Kudos, err: Option<DbError>)
      requires Valid()
      modifies this
      ensures Valid()
      ensures var g := GrantTx(old(State()), from, to, description, installationId, faults, missIsError);
        k == g.kudos && err == g.error && State() == g.tables
    {
      ghost var s := Resolve(State(), from, installationId, faults, missIsError);
      var sender := CreateUserIfNotExists(from, installationId, faults);
      if sender.Failure? {
        return ZeroKudos, Some(sender.error);
      }
      var recipient := CreateUserIfNotExists(to, installationId, faults);
      if recipient.Failure? {
        return ZeroKudos, Some(recipient.error);
      }
      k := Kudos(0, sender.value.userId, recipient.value.userId, description, sender.value.installationId);
      ExtendsKeeps(s.tables, State(), sender.value);
      k, err := SaveKudos(k, faults);
    }

    /** tx.Create(&kudos) (data/kudos.go:196): on success the row's key is written back into `kudos`. */
    method SaveKudos(k: Kudos, faults: set<Statement>) returns (saved: Kudos, err: Option<DbError>)
      requires Valid() && 1 <= k.fromUserId <= |users|
      modifies this
      ensures Valid()
      ensures match CreateKudosRow(old(State()), k, faults)
        case Inserted(row, t) => saved == row && err == None && State() == t
        case Rejected(e) => saved == k && err == Some(e) && State() == old(State())
    {
      var ins := CreateKudosRow(State(), k, faults);
      if ins.Rejected? {
        return k, Some(ins.error);
      }
      kudos := kudos + [ins.row];
      saved, err := ins.row, None;
    }

    /**
     * data/kudos.go:170-205. The transaction's error is dropped, so the call
     * never reports one; a grant that was not committed returns the kudos as
     * the body left it (zero, unsaved with key 0, or saved before a failed
     * COMMIT).
     */
    method CreateKudos(from: string, to: string, description: string, installationId: string, faults: set<Statement>) returns (k: Kudos, err: Option<DbError>)
      requires Valid()
      modifies this
      ensures Valid()
      ensures err == None
      ensures var g := Transact(old(State()), from, to, description, installationId, faults, missIsError);
        k == g.kudos && State() == g.tables
    {
      err := None;
      if Begin in faults {
        return ZeroKudos, err;
      }
      var snapshot := State();
      var txError;
      k, txError := GrantBody(from, to, description, installationId, faults);
      if txError.Some? || Commit in faults {
        Restore(snapshot);
      }
    }

    /** data/kudos.go:88-102 */
    method GetKudusCountForUser(installationId: string, username: string, faults: set<Statement>) returns (r: Result<nat, DbError>)
      requires Valid()
      ensures r == if CountKudos in faults then Failure(Unavailable(CountKudos)) else Success(KudusCount(State(), installationId, username))
    {
      if CountKudos in faults {
        return Failure(Unavailable(CountKudos));
      }
      r := Success(KudusCount(State(), installationId, username));
    }
  }
}
