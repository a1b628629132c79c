/** What every account transaction needs, in the order it is asked for, and all that it changes,
    written on the fields of the rows. */
module AuthOutcomes {
  import opened Prelude
  import opened Auth

  /** The challenge can be spent for this purpose now, by this user if one is named. */
  predicate Spendable(db: Db, c: Id, purpose: Purpose, user: Option<Id>, now: int) {
    && c in db.challenges && db.challenges[c].purpose == purpose
    && !db.challenges[c].used && now <= db.challenges[c].expiresAt
    && (user.Some? ==> db.challenges[c].user == user.value)
  }

  predicate WithSession(db: Db, c: Id) {
    c in db.challenges && db.challenges[c].session
  }

  function Spent(db: Db, c: Id): map<Id, Challenge>
    requires c in db.challenges
  {
    db.challenges[c := db.challenges[c].(used := true)]
  }

  predicate Usable(db: Db, user: Id) {
    user in db.users && db.users[user].active && db.users[user].ready
  }

  predicate HasCredential(db: Db, user: Id, credentialId: Id) {
    exists row :: row in db.creds && db.creds[row].user == user && db.creds[row].credentialId == credentialId
  }

  predicate CredentialIdFree(db: Db, credentialId: Id) {
    forall row :: row in db.creds ==> db.creds[row].credentialId != credentialId
  }

  predicate KeysFit(primary: string, anchor: string) {
    |primary| <= 512 && |anchor| <= 32 * 1024
  }

  // ---------------------------------------------------------------------------
  // Adding a passkey
  // ---------------------------------------------------------------------------

  /** The first thing that stands in the way of a passkey. */
  function AddRefusal(db: Db, c: Id, user: Id, p: NewPasskey, now: int): Option<Error> {
    if !Spendable(db, c, AddPasskey, Some(user), now) then Some(InvalidChallenge)
    else if !WithSession(db, c) then Some(NoSession)
    else if user !in db.users then Some(UserNotFound)
    else if !Usable(db, user) then Some(NotActive)
    else if !p.ceremony then Some(BadCeremony)
    else if HasCredential(db, user, p.credentialId) then Some(DuplicateCredential)
    else if !p.a.genuine then Some(BadAttestation)
    else if p.a.user != user then Some(BadAttestation)
    else if p.a.credentialId != p.credentialId then Some(BadAttestation)
    else if p.a.epoch != db.users[user].epoch then Some(BadAttestation)
    else if !KeysFit(p.primary, p.anchor) || |p.a.payload| > 4 * 1024 then Some(TooLarge)
    else if p.row in db.creds || !CredentialIdFree(db, p.credentialId) then Some(DuplicateCredential)
    else None
  }

  /** A passkey is added if and only if nothing stands in its way, and otherwise the first thing is
      reported. Adding it spends the challenge, stores that one credential at the user's epoch, and
      changes nothing else. */
  lemma AddCredentialIff(db: Db, c: Id, user: Id, p: NewPasskey, now: int)
    ensures AddCredentialFinish(db, c, user, p, now) ==
              match AddRefusal(db, c, user, p, now)
              case Some(e) => Err(e)
              case None =>
                Ok(Db(db.users,
                      db.creds[p.row := Credential(user, p.credentialId, p.primary, p.anchor, db.users[user].epoch)],
                      Spent(db, c)))
  {
    assert HasCredential(db, user, p.credentialId) <==> Matching(db.creds, user, p.credentialId) != {} by {
      MatchingIff(db, user, p.credentialId);
    }
  }

  lemma MatchingIff(db: Db, user: Id, credentialId: Id)
    ensures HasCredential(db, user, credentialId) <==> Matching(db.creds, user, credentialId) != {}
  {
    if HasCredential(db, user, credentialId) {
      var row :| row in db.creds && db.creds[row].user == user && db.creds[row].credentialId == credentialId;
      assert row in Matching(db.creds, user, credentialId);
    }
  }

  /** A ceremony begins for a usable account only, on a fresh challenge; it keeps the epoch the
      account has then. */
  lemma AddCredentialBeginIff(db: Db, c: Id, user: Id, expiresAt: int, session: bool)
    ensures AddCredentialBegin(db, c, user, expiresAt, session) ==
              if !Usable(db, user) then Err(NotActive)
              else if c in db.challenges then Err(InvalidChallenge)
              else
                var begun := Challenge(AddPasskey, user, expiresAt, false, session, db.users[user].epoch);
                Ok(db.(challenges := db.challenges[c := begun]))
  {
  }

  // ---------------------------------------------------------------------------
  // Signing up
  // ---------------------------------------------------------------------------

  function RegisterRefusal(db: Db, c: Id, ceremony: bool, row: Id, credentialId: Id, now: int): Option<Error> {
    if !Spendable(db, c, Register, None, now) then Some(InvalidChallenge)
    else if !WithSession(db, c) then Some(NoSession)
    else if !ceremony then Some(BadCeremony)
    else if db.challenges[c].user in db.users then Some(UserAlreadyExists)
    else if row in db.creds || !CredentialIdFree(db, credentialId) then Some(UserAlreadyExists)
    else None
  }

  /** Registering spends the challenge and makes its user, active but not ready, at epoch 1, with one
      credential that has no wrapped keys yet. */
  lemma RegisterIff(db: Db, c: Id, ceremony: bool, row: Id, credentialId: Id, now: int)
    ensures RegisterFinish(db, c, ceremony, row, credentialId, now) ==
              match RegisterRefusal(db, c, ceremony, row, credentialId, now)
              case Some(e) => Err(e)
              case None =>
                var user := db.challenges[c].user;
                Ok(Db(db.users[user := User(true, false, 1, now)],
                      db.creds[row := Credential(user, credentialId, "", "", 1)],
                      Spent(db, c)))
  {
  }

  predicate OnlyCredential(db: Db, user: Id, row: Id) {
    forall r :: r in db.creds ==> (db.creds[r].user == user <==> r == row)
  }

  /** What stands in the way of finishing the sign-up of a user whose one credential is `row`. */
  function SetupRefusal(db: Db, user: Id, row: Id, primary: string, anchor: string, bundle: bool, a: Attestation)
    : Option<Error>
    requires row in db.creds
  {
    if !bundle then Some(BadBundle)
    else if !a.genuine then Some(BadAttestation)
    else if a.user != user then Some(BadAttestation)
    else if a.credentialId != db.creds[row].credentialId then Some(BadAttestation)
    else if a.epoch != 1 then Some(BadAttestation)
    else if !KeysFit(primary, anchor) || |a.payload| > 4 * 1024 then Some(TooLarge)
    else if user !in db.users then Some(UserNotFound)
    else if db.users[user].ready then Some(AlreadyFinalized)
    else if !db.users[user].active then Some(NotActive)
    else None
  }

  /** Finishing the sign-up makes the user ready and gives the credential both wrapped keys, each in
      its place, at epoch 1. */
  lemma FinalizeIff(
      db: Db, user: Id, row: Id, primary: string, anchor: string, bundle: bool, a: Attestation)
    requires row in db.creds && OnlyCredential(db, user, row)
    ensures FinalizeSetup(db, user, primary, anchor, bundle, a) ==
              match SetupRefusal(db, user, row, primary, anchor, bundle, a)
              case Some(e) => Err(e)
              case None =>
                var c := Credential(user, db.creds[row].credentialId, primary, anchor, 1);
                Ok(Db(db.users[user := db.users[user].(ready := true)], db.creds[row := c], db.challenges))
  {
    assert Of(db.creds, user) == {row};
    assert CredentialIds(db.creds, user) == {db.creds[row].credentialId};
    assert Rewrap(db.creds, {row}, primary, anchor, 1) ==
             db.creds[row := Credential(user, db.creds[row].credentialId, primary, anchor, 1)];
  }

  /** Without exactly one credential of the user it is refused, whatever else is given. */
  lemma FinalizeNeedsOneCredential(
      db: Db, user: Id, primary: string, anchor: string, bundle: bool, a: Attestation)
    ensures FinalizeSetup(db, user, primary, anchor, bundle, a) == Err(NotOneCredential) <==>
            !exists row :: row in db.creds && OnlyCredential(db, user, row)
  {
    var own := Of(db.creds, user);
    if row :| row in db.creds && OnlyCredential(db, user, row) {
      assert own == {row};
    }
    if |own| == 1 {
      var row :| row in own;
      OnlyMember(own, row);
      forall r | r in db.creds ensures db.creds[r].user == user <==> r == row {
        assert r in own <==> r in {row};
      }
    }
  }

  // ---------------------------------------------------------------------------
  // Replacing a wrapped key
  // ---------------------------------------------------------------------------

  /** A ceremony of this user that could still finish. */
  predicate UnderWay(db: Db, user: Id, now: int) {
    exists c :: c in db.challenges && Spendable(db, c, AddPasskey, Some(user), now)
  }

  function ReplaceRefusal(
      db: Db, user: Id, credentialId: Id, advance: bool, primary: string, anchor: string, now: int)
    : Option<Error>
  {
    if UnderWay(db, user, now) then Some(CeremonyPending)
    else if advance && !Usable(db, user) then Some(UserNotFound)
    else if !KeysFit(primary, anchor) then Some(TooLarge)
    else if user !in db.users || !db.users[user].active then Some(CredentialNotFound)
    else if !HasCredential(db, user, credentialId) then Some(CredentialNotFound)
    else None
  }

  /** Each credential after a replacement: the named one has the new keys and the epoch, every other
      is as it was. */
  predicate Rekeyed(before: Db, after: Db, user: Id, credentialId: Id, primary: string, anchor: string, epoch: int) {
    && after.creds.Keys == before.creds.Keys
    && forall row :: row in before.creds ==>
         after.creds[row] ==
           if before.creds[row].user == user && before.creds[row].credentialId == credentialId
           then Credential(user, credentialId, primary, anchor, epoch) else before.creds[row]
  }

  /** A replacement succeeds exactly when nothing stands in its way; with the advance the user's
      epoch is one higher, and nothing else changes. */
  lemma ReplaceIff(
      db: Db, user: Id, credentialId: Id, advance: bool, primary: string, anchor: string, now: int)
    ensures var r := UpdateWrappedKey(db, user, credentialId, advance, primary, anchor, now);
            match ReplaceRefusal(db, user, credentialId, advance, primary, anchor, now)
            case Some(e) => r == Err(e)
            case None =>
              var epoch := db.users[user].epoch + if advance then 1 else 0;
              && r.Ok? && r.value.challenges == db.challenges
              && r.value.users == db.users[user := db.users[user].(epoch := epoch)]
              && Rekeyed(db, r.value, user, credentialId, primary, anchor, epoch)
  {
    MatchingIff(db, user, credentialId);
    assert UnderWay(db, user, now) <==> HasPendingChallenge(db, user, AddPasskey, now) by {
      if UnderWay(db, user, now) {
        var c :| c in db.challenges && Spendable(db, c, AddPasskey, Some(user), now);
        assert Blocks(db.challenges[c], user, AddPasskey, now);
      }
      if HasPendingChallenge(db, user, AddPasskey, now) {
        var c :| c in db.challenges && Blocks(db.challenges[c], user, AddPasskey, now);
        assert Spendable(db, c, AddPasskey, Some(user), now);
      }
    }
    if user in db.users {
      assert db.users[user := db.users[user].(epoch := db.users[user].epoch)] == db.users;
    }
  }

  // ---------------------------------------------------------------------------
  // Housekeeping
  // ---------------------------------------------------------------------------

  /** A challenge goes when it is spent or was due before the cutoff, a user who never got ready when
      created before it, and with a user all of its credentials. */
  lemma HousekeepingRemoves(db: Db, c: Id, user: Id, cutoff: int)
    ensures DeleteChallenge(db, c, cutoff).users == db.users && DeleteChallenge(db, c, cutoff).creds == db.creds
    ensures CleanupChallenges(db, cutoff).users == db.users && CleanupChallenges(db, cutoff).creds == db.creds
    ensures forall d :: d in DeleteChallenge(db, c, cutoff).challenges <==>
              d in db.challenges && (d == c ==> !db.challenges[d].used && cutoff <= db.challenges[d].expiresAt)
    ensures forall d :: d in CleanupChallenges(db, cutoff).challenges <==>
              d in db.challenges && !db.challenges[d].used && cutoff <= db.challenges[d].expiresAt
    ensures forall d :: d in DeleteChallenge(db, c, cutoff).challenges ==>
              DeleteChallenge(db, c, cutoff).challenges[d] == db.challenges[d]
    ensures forall d :: d in CleanupChallenges(db, cutoff).challenges ==>
              CleanupChallenges(db, cutoff).challenges[d] == db.challenges[d]
    ensures var gone := user in db.users && !db.users[user].ready && db.users[user].createdAt < cutoff;
            DeleteNonreadyUser(db, user, cutoff) ==
              Db(map u | u in db.users && !(gone && u == user) :: db.users[u],
                 map row | row in db.creds && !(gone && db.creds[row].user == user) :: db.creds[row],
                 db.challenges)
  {
    var gone := user in db.users && !db.users[user].ready && db.users[user].createdAt < cutoff;
    var users := map u | u in db.users && !(gone && u == user) :: db.users[u];
    var creds := map row | row in db.creds && !(gone && db.creds[row].user == user) :: db.creds[row];
    var after := DeleteNonreadyUser(db, user, cutoff);
    assert after.users == users && after.creds == creds;
  }
}
