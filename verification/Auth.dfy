/** Users, passkey credentials and one-time challenges: the SQL statements of the auth store and
    the transactions of the handlers that use it. A transaction that fails leaves no trace. */
module Auth {
  import opened Prelude

  type Id = string

  /** A user row. The clock of this module counts whole seconds, as the database does. */
  datatype User = User(active: bool, ready: bool, epoch: int, createdAt: int)

  datatype Credential = Credential(user: Id, credentialId: Id, primary: string, anchor: string, epoch: int)

  datatype Purpose = Register | AddPasskey

  /** `session` tells whether WebAuthn session data is stored with the challenge; `begunAt` is
      history: the epoch the user had when the challenge was begun. */
  datatype Challenge = Challenge(
    purpose: Purpose, user: Id, expiresAt: int, used: bool, session: bool, begunAt: int)

  datatype Db = Db(users: map<Id, User>, creds: map<Id, Credential>, challenges: map<Id, Challenge>)

  datatype Error =
    | InvalidChallenge
    | NoSession
    | BadCeremony
    | BadBundle
    | UserAlreadyExists
    | UserNotFound
    | NotActive
    | NotOneCredential
    | BadAttestation
    | AlreadyFinalized
    | TooLarge
    | CeremonyPending
    | CredentialNotFound
    | LastCredential
    | DuplicateCredential

  // ---------------------------------------------------------------------------
  // Statements
  // ---------------------------------------------------------------------------

  predicate IsActive(db: Db, user: Id) {
    user in db.users && db.users[user].active
  }

  predicate IsReady(db: Db, user: Id) {
    IsActive(db, user) && db.users[user].ready
  }

  /** The rows of one user's credentials. */
  function Of(creds: map<Id, Credential>, user: Id): set<Id> {
    set row | row in creds && creds[row].user == user
  }

  predicate Taken(creds: map<Id, Credential>, credentialId: Id) {
    exists row :: row in creds && creds[row].credentialId == credentialId
  }

  predicate Live(c: Challenge, now: int) {
    !c.used && c.expiresAt >= now
  }

  predicate HasPendingChallenge(db: Db, user: Id, purpose: Purpose, now: int) {
    exists id :: id in db.challenges && Blocks(db.challenges[id], user, purpose, now)
  }

  predicate Blocks(c: Challenge, user: Id, purpose: Purpose, now: int) {
    c.user == user && c.purpose == purpose && Live(c, now)
  }

  function BeginChallenge(
      db: Db, id: Id, purpose: Purpose, user: Id, expiresAt: int, session: bool)
    : Result<Db, Error>
  {
    if id in db.challenges then Err(InvalidChallenge)
    else
      var epoch := if user in db.users then db.users[user].epoch else 0;
      Ok(db.(challenges := db.challenges[id := Challenge(purpose, user, expiresAt, false, session, epoch)]))
  }

  /** Marks a live challenge used; a named user must own it. */
  function ConsumeChallenge(db: Db, id: Id, purpose: Purpose, user: Option<Id>, now: int): Result<Db, Error> {
    if && id in db.challenges
       && db.challenges[id].purpose == purpose
       && Live(db.challenges[id], now)
       && (user == None || user == Some(db.challenges[id].user))
    then Ok(db.(challenges := db.challenges[id := db.challenges[id].(used := true)]))
    else Err(InvalidChallenge)
  }

  function InsertUser(db: Db, user: Id, now: int): Result<Db, Error> {
    if user in db.users then Err(UserAlreadyExists)
    else Ok(db.(users := db.users[user := User(true, false, 1, now)]))
  }

  /** Row ids are primary keys and credential ids are unique in the whole table. */
  function InsertCredential(db: Db, row: Id, c: Credential): Result<Db, Error> {
    if row in db.creds || Taken(db.creds, c.credentialId) then Err(DuplicateCredential)
    else Ok(db.(creds := db.creds[row := c]))
  }

  function Rewrap(creds: map<Id, Credential>, rows: set<Id>, primary: string, anchor: string, epoch: int)
    : map<Id, Credential>
  {
    map row | row in creds ::
      if row in rows then creds[row].(primary := primary, anchor := anchor, epoch := epoch) else creds[row]
  }

  predicate FitsColumns(primary: string, anchor: string) {
    |primary| <= 512 && |anchor| <= 32768
  }

  predicate FitsAttested(primary: string, anchor: string, payload: string) {
    FitsColumns(primary, anchor) && |payload| <= 4096
  }

  function FinalizeSignup(db: Db, user: Id, primary: string, anchor: string, payload: string): Result<Db, Error> {
    if !FitsAttested(primary, anchor, payload) then Err(TooLarge)
    else if user !in db.users then Err(UserNotFound)
    else if db.users[user].ready then Err(AlreadyFinalized)
    else
      var users := db.users[user := db.users[user].(ready := true)];
      Ok(Db(users, Rewrap(db.creds, Of(db.creds, user), primary, anchor, 1), db.challenges))
  }

  function AdvanceEpoch(db: Db, user: Id): Result<Db, Error> {
    if !IsReady(db, user) then Err(UserNotFound)
    else Ok(db.(users := db.users[user := db.users[user].(epoch := db.users[user].epoch + 1)]))
  }

  function Matching(creds: map<Id, Credential>, user: Id, credentialId: Id): set<Id> {
    set row | row in creds && creds[row].user == user && creds[row].credentialId == credentialId
  }

  function UpdateCredential(db: Db, user: Id, credentialId: Id, primary: string, anchor: string): Result<Db, Error> {
    if !FitsColumns(primary, anchor) then Err(TooLarge)
    else if !IsActive(db, user) || Matching(db.creds, user, credentialId) == {} then Err(CredentialNotFound)
    else
      var rows, epoch := Matching(db.creds, user, credentialId), db.users[user].epoch;
      Ok(db.(creds := Rewrap(db.creds, rows, primary, anchor, epoch)))
  }

  function AddCredential(db: Db, user: Id, p: NewPasskey): Result<Db, Error> {
    if !FitsAttested(p.primary, p.anchor, p.a.payload) then Err(TooLarge)
    else if !IsActive(db, user) then Err(UserNotFound)
    else InsertCredential(db, p.row, Credential(user, p.credentialId, p.primary, p.anchor, db.users[user].epoch))
  }

  /** Deletes one credential but never the last one. */
  function DeleteCredential(db: Db, row: Id, user: Id): Result<Db, Error> {
    if row !in Of(db.creds, user) then Err(CredentialNotFound)
    else if |Of(db.creds, user)| == 1 then Err(LastCredential)
    else Ok(db.(creds := db.creds - {row}))
  }

  function DeleteChallenge(db: Db, id: Id, cutoff: int): Db {
    if id in db.challenges && (db.challenges[id].expiresAt < cutoff || db.challenges[id].used)
    then db.(challenges := db.challenges - {id})
    else db
  }

  function CleanupChallenges(db: Db, cutoff: int): Db {
    db.(challenges :=
      map id | id in db.challenges && cutoff <= db.challenges[id].expiresAt && !db.challenges[id].used ::
        db.challenges[id])
  }

  /** Deletes an account that never finished signing up, and its credentials with it. */
  function DeleteNonreadyUser(db: Db, user: Id, cutoff: int): Db {
    if user in db.users && !db.users[user].ready && db.users[user].createdAt < cutoff
    then Db(db.users - {user}, db.creds - Of(db.creds, user), db.challenges)
    else db
  }

  // ---------------------------------------------------------------------------
  // Transactions
  // ---------------------------------------------------------------------------

  /** What an attestation signed by the user's anchor claims; `genuine` is the verdict on its
      signatures, its timestamp and its public-key hash. */
  datatype Attestation = Attestation(payload: string, genuine: bool, user: Id, credentialId: Id, epoch: int)

  /** `ceremony` is the verdict of the WebAuthn library on the browser's answer. */
  function RegisterFinish(db: Db, challenge: Id, ceremony: bool, row: Id, credentialId: Id, now: int)
    : Result<Db, Error>
  {
    var consumed :- ConsumeChallenge(db, challenge, Register, None, now);
    var user := db.challenges[challenge].user;
    if !db.challenges[challenge].session then Err(NoSession)
    else if !ceremony then Err(BadCeremony)
    else
      var registered :- InsertUser(consumed, user, now);
      var inserted := InsertCredential(registered, row, Credential(user, credentialId, "", "", 1));
      if inserted.Err? then Err(UserAlreadyExists) else inserted
  }

  predicate Attests(a: Attestation, user: Id, creds: set<Id>, epoch: int) {
    a.genuine && a.user == user && a.credentialId in creds && a.epoch == epoch
  }

  function CredentialIds(creds: map<Id, Credential>, user: Id): set<Id> {
    set row | row in Of(creds, user) :: creds[row].credentialId
  }

  /** `bundle` is the verdict on the self-signature of the user's public keys. */
  function FinalizeSetup(db: Db, user: Id, primary: string, anchor: string, bundle: bool, a: Attestation)
    : Result<Db, Error>
  {
    if |Of(db.creds, user)| != 1 then Err(NotOneCredential)
    else if !bundle then Err(BadBundle)
    else if !Attests(a, user, CredentialIds(db.creds, user), 1) then Err(BadAttestation)
    else
      var done :- FinalizeSignup(db, user, primary, anchor, a.payload);
      if IsReady(done, user) then Ok(done) else Err(NotActive)
  }

  function AddCredentialBegin(db: Db, challenge: Id, user: Id, expiresAt: int, session: bool): Result<Db, Error> {
    if !IsReady(db, user) then Err(NotActive)
    else BeginChallenge(db, challenge, AddPasskey, user, expiresAt, session)
  }

  datatype NewPasskey = NewPasskey(
    ceremony: bool, row: Id, credentialId: Id, primary: string, anchor: string, a: Attestation)

  function AddCredentialFinish(db: Db, challenge: Id, user: Id, p: NewPasskey, now: int): Result<Db, Error> {
    var consumed :- ConsumeChallenge(db, challenge, AddPasskey, Some(user), now);
    if !db.challenges[challenge].session then Err(NoSession)
    else if user !in db.users then Err(UserNotFound)
    else if !IsReady(consumed, user) then Err(NotActive)
    else if !p.ceremony then Err(BadCeremony)
    else if Matching(consumed.creds, user, p.credentialId) != {} then Err(DuplicateCredential)
    else if !Attests(p.a, user, {p.credentialId}, db.users[user].epoch) then Err(BadAttestation)
    else AddCredential(consumed, user, p)
  }

  function UpdateWrappedKey(
      db: Db, user: Id, credentialId: Id, advance: bool, primary: string, anchor: string, now: int)
    : Result<Db, Error>
  {
    if HasPendingChallenge(db, user, AddPasskey, now) then Err(CeremonyPending)
    else
      var advanced :- if advance then AdvanceEpoch(db, user) else Ok(db);
      UpdateCredential(advanced, user, credentialId, primary, anchor)
  }

  // ---------------------------------------------------------------------------
  // The store and the handlers
  // ---------------------------------------------------------------------------

  lemma OnlyMember(rows: set<Id>, row: Id)
    requires |rows| == 1 && row in rows
    ensures rows == {row}
  {
    assert |rows - {row}| == 0;
  }

  class AuthStore {
    var users: map<Id, User>
    var creds: map<Id, Credential>
    var challenges: map<Id, Challenge>

    function View(): Db
      reads this
    {
      Db(users, creds, challenges)
    }

    constructor ()
      ensures View() == Db(map[], map[], map[])
    {
      users, creds, challenges := map[], map[], map[];
    }

    method Consume(id: Id, purpose: Purpose, user: Option<Id>, now: int) returns (error: Option<Error>)
      modifies this`challenges
      ensures var r := ConsumeChallenge(old(View()), id, purpose, user, now);
              if r.Ok? then error.None? && View() == r.value else error == Some(r.error) && View() == old(View())
      ensures challenges - {id} == old(challenges) - {id}
      ensures error.None? ==> id in old(challenges) && Live(old(challenges)[id], now)
      ensures error.None? ==> id in challenges && !Live(challenges[id], now)
    {
      if id in challenges {
        var c := challenges[id];
        if c.purpose == purpose && !c.used && c.expiresAt >= now && (user == None || user == Some(c.user)) {
          challenges := challenges[id := c.(used := true)];
          return None;
        }
      }
      return Some(InvalidChallenge);
    }

    method AdvanceWrappedKeyEpoch(user: Id) returns (error: Option<Error>)
      modifies this`users
      ensures var r := AdvanceEpoch(old(View()), user);
              if r.Ok? then error.None? && View() == r.value else error == Some(r.error) && View() == old(View())
      ensures users - {user} == old(users) - {user}
      ensures error.None? ==> old(IsReady(View(), user)) && IsReady(View(), user)
      ensures error.None? ==> users[user].epoch == old(users)[user].epoch + 1
    {
      if user !in users || !users[user].active || !users[user].ready {
        return Some(UserNotFound);
      }
      users := users[user := users[user].(epoch := users[user].epoch + 1)];
      return None;
    }

    method UpdateCredentialWrappedKey(user: Id, credentialId: Id, primary: string, anchor: string)
      returns (error: Option<Error>)
      modifies this`creds
      ensures var r := UpdateCredential(old(View()), user, credentialId, primary, anchor);
              if r.Ok? then error.None? && View() == r.value else error == Some(r.error) && View() == old(View())
      ensures creds.Keys == old(creds).Keys
      ensures forall row :: row in creds && row !in Matching(creds, user, credentialId) ==>
                creds[row] == old(creds)[row]
      ensures error.None? ==> IsActive(View(), user) && Matching(creds, user, credentialId) != {}
      ensures error.None? ==> forall row :: row in Matching(creds, user, credentialId) ==>
                creds[row] == Credential(user, credentialId, primary, anchor, users[user].epoch)
    {
      if |primary| > 512 || |anchor| > 32768 {
        return Some(TooLarge);
      }
      var affected := Matching(creds, user, credentialId);
      if user !in users || !users[user].active || affected == {} {
        return Some(CredentialNotFound);
      }
      creds := Rewrap(creds, affected, primary, anchor, users[user].epoch);
      return None;
    }

    /** The handler's transaction: whatever fails, the epoch advance is rolled back with it. */
    method ReplaceWrappedKey(
        user: Id, credentialId: Id, advance: bool, primary: string, anchor: string, now: int)
      returns (error: Option<Error>)
      modifies this`users, this`creds
      ensures var r := UpdateWrappedKey(old(View()), user, credentialId, advance, primary, anchor, now);
              if r.Ok? then error.None? && View() == r.value else error == Some(r.error) && View() == old(View())
    {
      var begin := View();
      if HasPendingChallenge(View(), user, AddPasskey, now) {
        return Some(CeremonyPending);
      }
      if advance {
        error := AdvanceWrappedKeyEpoch(user);
        if error.Some? {
          return;
        }
      }
      error := UpdateCredentialWrappedKey(user, credentialId, primary, anchor);
      if error.Some? {
        users, creds := begin.users, begin.creds;
      }
    }

    method FinishAddCredential(challenge: Id, user: Id, p: NewPasskey, now: int) returns (error: Option<Error>)
      modifies this`challenges, this`creds
      ensures var r := AddCredentialFinish(old(View()), challenge, user, p, now);
              if r.Ok? then error.None? && View() == r.value else error == Some(r.error) && View() == old(View())
    {
      var begin := View();
      error := Consume(challenge, AddPasskey, Some(user), now);
      if error.Some? {
        return;
      }
      if !challenges[challenge].session {
        error := Some(NoSession);
      } else if user !in users {
        error := Some(UserNotFound);
      } else if !users[user].active || !users[user].ready {
        error := Some(NotActive);
      } else if !p.ceremony {
        error := Some(BadCeremony);
      } else if Matching(creds, user, p.credentialId) != {} {
        error := Some(DuplicateCredential);
      } else if !p.a.genuine || p.a.user != user || p.a.credentialId != p.credentialId
                || p.a.epoch != users[user].epoch {
        error := Some(BadAttestation);
      } else if |p.primary| > 512 || |p.anchor| > 32768 || |p.a.payload| > 4096 {
        error := Some(TooLarge);
      } else if p.row in creds || Taken(creds, p.credentialId) {
        error := Some(DuplicateCredential);
      } else {
        creds := creds[p.row := Credential(user, p.credentialId, p.primary, p.anchor, users[user].epoch)];
      }
      if error.Some? {
        challenges := begin.challenges;
      }
    }

    method FinishRegistration(challenge: Id, ceremony: bool, row: Id, credentialId: Id, now: int)
      returns (error: Option<Error>)
      modifies this
      ensures var r := RegisterFinish(old(View()), challenge, ceremony, row, credentialId, now);
              if r.Ok? then error.None? && View() == r.value else error == Some(r.error) && View() == old(View())
    {
      var begin := View();
      error := Consume(challenge, Register, None, now);
      if error.Some? {
        return;
      }
      var user := challenges[challenge].user;
      if !challenges[challenge].session {
        error := Some(NoSession);
      } else if !ceremony {
        error := Some(BadCeremony);
      } else if user in users || row in creds || Taken(creds, credentialId) {
        error := Some(UserAlreadyExists);
      } else {
        users := users[user := User(true, false, 1, now)];
        creds := creds[row := Credential(user, credentialId, "", "", 1)];
      }
      if error.Some? {
        challenges := begin.challenges;
      }
    }

    method FinishSetup(user: Id, primary: string, anchor: string, bundle: bool, a: Attestation)
      returns (error: Option<Error>)
      modifies this`users, this`creds
      ensures var r := FinalizeSetup(old(View()), user, primary, anchor, bundle, a);
              if r.Ok? then error.None? && View() == r.value else error == Some(r.error) && View() == old(View())
    {
      var begin := View();
      var own := Of(creds, user);
      if |own| != 1 {
        return Some(NotOneCredential);
      }
      var row :| row in own;
      assert own == {row} by { OnlyMember(own, row); }
      if !bundle {
        return Some(BadBundle);
      }
      if !a.genuine || a.user != user || a.credentialId != creds[row].credentialId || a.epoch != 1 {
        return Some(BadAttestation);
      }
      if |primary| > 512 || |anchor| > 32768 || |a.payload| > 4096 {
        return Some(TooLarge);
      }
      if user !in users {
        return Some(UserNotFound);
      }
      if users[user].ready {
        return Some(AlreadyFinalized);
      }
      users := users[user := users[user].(ready := true)];
      creds := Rewrap(creds, own, primary, anchor, 1);
      if !users[user].active {
        users, creds := begin.users, begin.creds;
        return Some(NotActive);
      }
      return None;
    }

    /** One statement counts, deletes and reports; a switch on the counts names the outcome. */
    method DeleteCredentialPostgres(row: Id, user: Id) returns (error: Option<Error>)
      modifies this`creds
      ensures var r := DeleteCredential(old(View()), row, user);
              if r.Ok? then error.None? && View() == r.value else error == Some(r.error) && View() == old(View())
    {
      var locked := Of(creds, user);
      var total := |locked|;
      var target := if row in locked then 1 else 0;
      var deleted := 0;
      if row in creds && creds[row].user == user && total > 1 && row in locked {
        creds := creds - {row};
        deleted := 1;
      }
      if deleted == 1 {
        return None;
      } else if target == 0 {
        return Some(CredentialNotFound);
      } else if total <= 1 {
        assert total == 1 by { assert locked != {}; }
        return Some(LastCredential);
      }
      // The source's fourth case, an unexpected state, cannot be reached.
      assert false;
    }

    /** The delete reports only success; a second query tells the two failures apart. */
    method DeleteCredentialSqlite(row: Id, user: Id) returns (error: Option<Error>)
      modifies this`creds
      ensures var r := DeleteCredential(old(View()), row, user);
              if r.Ok? then error.None? && View() == r.value else error == Some(r.error) && View() == old(View())
    {
      var snapshot := Of(creds, user);
      if row in creds && creds[row].user == user && |snapshot| > 1 {
        creds := creds - {row};
        return None;
      }
      if row !in Of(creds, user) {
        return Some(CredentialNotFound);
      }
      assert Of(creds, user) != {};
      return Some(LastCredential);
    }
  }
}
