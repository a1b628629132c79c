/** Whole-run properties of accounts: any interleaving of the auth transactions, over a clock that
    never goes back. */
module AuthTheorems {
  import opened Prelude
  import opened Auth

  datatype Action =
    | Tick(to: int)
    | BeginRegister(challenge: Id, user: Id, expiresAt: int, session: bool)
    | FinishRegister(challenge: Id, ceremony: bool, row: Id, credentialId: Id)
    | Finalize(user: Id, primary: string, anchor: string, bundle: bool, a: Attestation)
    | BeginAdd(challenge: Id, user: Id, expiresAt: int, session: bool)
    | FinishAdd(challenge: Id, user: Id, p: NewPasskey)
    | ReplaceKey(user: Id, credentialId: Id, advance: bool, primary: string, anchor: string)
    | Delete(row: Id, user: Id)
    | DropChallenge(challenge: Id, cutoff: int)
    | DropChallenges(cutoff: int)
    | DropUser(user: Id, cutoff: int)
    /** An operator disables or enables an account. */
    | SetActive(user: Id, active: bool)

  datatype World = World(now: int, db: Db)

  /** A transaction commits its whole effect or has none. */
  function Commit(db: Db, r: Result<Db, Error>): Db {
    if r.Ok? then r.value else db
  }

  function Attempt(w: World, a: Action): Result<Db, Error> {
    match a
    case Tick(_) => Ok(w.db)
    case BeginRegister(c, user, expiresAt, session) => BeginChallenge(w.db, c, Register, user, expiresAt, session)
    case FinishRegister(c, ceremony, row, credentialId) =>
      RegisterFinish(w.db, c, ceremony, row, credentialId, w.now)
    case Finalize(user, primary, anchor, bundle, att) => FinalizeSetup(w.db, user, primary, anchor, bundle, att)
    case BeginAdd(c, user, expiresAt, session) => AddCredentialBegin(w.db, c, user, expiresAt, session)
    case FinishAdd(c, user, p) => AddCredentialFinish(w.db, c, user, p, w.now)
    case ReplaceKey(user, credentialId, advance, primary, anchor) =>
      UpdateWrappedKey(w.db, user, credentialId, advance, primary, anchor, w.now)
    case Delete(row, user) => DeleteCredential(w.db, row, user)
    case DropChallenge(c, cutoff) => Ok(DeleteChallenge(w.db, c, cutoff))
    case DropChallenges(cutoff) => Ok(CleanupChallenges(w.db, cutoff))
    case DropUser(user, cutoff) => Ok(DeleteNonreadyUser(w.db, user, cutoff))
    case SetActive(user, active) =>
      if user !in w.db.users then Err(UserNotFound)
      else Ok(w.db.(users := w.db.users[user := w.db.users[user].(active := active)]))
  }

  function Step(w: World, a: Action): World {
    World(if a.Tick? && w.now <= a.to then a.to else w.now, Commit(w.db, Attempt(w, a)))
  }

  const START := World(0, Db(map[], map[], map[]))

  function Exec(run: seq<Action>): World {
    if run == [] then START else Step(Exec(run[..|run| - 1]), run[|run| - 1])
  }

  // ---------------------------------------------------------------------------
  // The invariant
  // ---------------------------------------------------------------------------

  ghost predicate UsersOk(users: map<Id, User>) {
    forall u :: u in users ==> UserOk(users[u])
  }

  predicate UserOk(u: User) {
    u.epoch >= 1 && (!u.ready ==> u.epoch == 1)
  }

  ghost predicate EpochsOk(users: map<Id, User>, creds: map<Id, Credential>) {
    forall r :: r in creds ==> EpochOk(users, creds[r])
  }

  predicate EpochOk(users: map<Id, User>, c: Credential) {
    c.user in users && 1 <= c.epoch <= users[c.user].epoch
  }

  ghost predicate CredentialIdsUnique(creds: map<Id, Credential>) {
    forall r, s :: r in creds && s in creds && creds[r].credentialId == creds[s].credentialId ==> r == s
  }

  /** Every account has a credential, and exactly one until it is ready. */
  ghost predicate EveryUserHasOne(users: map<Id, User>, creds: map<Id, Credential>) {
    forall u :: u in users ==> HasOne(users[u].ready, creds, u)
  }

  ghost predicate HasOne(ready: bool, creds: map<Id, Credential>, u: Id) {
    Of(creds, u) != {} && (!ready ==> |Of(creds, u)| == 1)
  }

  /** A live passkey challenge belongs to a ready user, whose epoch is what it was at the start. */
  ghost predicate ChallengesOk(users: map<Id, User>, challenges: map<Id, Challenge>, now: int) {
    forall c :: c in challenges ==> Frozen(users, challenges[c], now)
  }

  predicate Frozen(users: map<Id, User>, c: Challenge, now: int) {
    c.purpose == AddPasskey && Live(c, now) ==>
      c.user in users && users[c.user].ready && users[c.user].epoch == c.begunAt
  }

  ghost predicate Sound(users: map<Id, User>, creds: map<Id, Credential>) {
    UsersOk(users) && EpochsOk(users, creds) && CredentialIdsUnique(creds)
  }

  ghost predicate Accounts(users: map<Id, User>, creds: map<Id, Credential>) {
    Sound(users, creds) && EveryUserHasOne(users, creds)
  }

  ghost predicate Inv(w: World) {
    Accounts(w.db.users, w.db.creds) && ChallengesOk(w.db.users, w.db.challenges, w.now)
  }

  lemma InsertCounts(users: map<Id, User>, creds: map<Id, Credential>, row: Id, c: Credential)
    requires EveryUserHasOne(users, creds) && row !in creds
    requires c.user in users && users[c.user].ready
    ensures EveryUserHasOne(users, creds[row := c])
  {
    forall u | u in users ensures HasOne(users[u].ready, creds[row := c], u) {
      assert HasOne(users[u].ready, creds, u);
      assert Of(creds[row := c], u) == if u == c.user then Of(creds, u) + {row} else Of(creds, u);
    }
  }

  lemma InsertIsSound(users: map<Id, User>, creds: map<Id, Credential>, row: Id, c: Credential)
    requires Sound(users, creds) && row !in creds && !Taken(creds, c.credentialId) && EpochOk(users, c)
    ensures Sound(users, creds[row := c])
  {
  }

  lemma RegisterCounts(users: map<Id, User>, creds: map<Id, Credential>, row: Id, c: Credential, user: User)
    requires Sound(users, creds) && EveryUserHasOne(users, creds) && row !in creds && c.user !in users
    ensures EveryUserHasOne(users[c.user := user], creds[row := c])
  {
    var after, creds' := users[c.user := user], creds[row := c];
    forall u | u in after ensures HasOne(after[u].ready, creds', u) {
      if u == c.user {
        forall r | r in creds ensures creds[r].user != u {
          assert EpochOk(users, creds[r]);
        }
        assert Of(creds', u) == {row};
      } else {
        assert HasOne(users[u].ready, creds, u);
        assert Of(creds', u) == Of(creds, u);
      }
    }
  }

  lemma RegisterIsSound(users: map<Id, User>, creds: map<Id, Credential>, row: Id, c: Credential, user: User)
    requires Sound(users, creds) && row !in creds && !Taken(creds, c.credentialId)
    requires c.user !in users && c.epoch == 1 && UserOk(user)
    ensures Sound(users[c.user := user], creds[row := c])
  {
    var after, creds' := users[c.user := user], creds[row := c];
    forall r | r in creds' ensures EpochOk(after, creds'[r]) {
      assert r != row ==> EpochOk(users, creds[r]);
    }
  }

  /** New wrapped keys at an epoch the user has, with a user row that only moved forward. */
  lemma RewrapKeeps(
      users: map<Id, User>, creds: map<Id, Credential>, user: Id, after: User,
      rows: set<Id>, primary: string, anchor: string, epoch: int)
    requires Accounts(users, creds) && user in users && rows <= Of(creds, user)
    requires UserOk(after) && users[user].epoch <= after.epoch && (users[user].ready ==> after.ready)
    requires 1 <= epoch <= after.epoch
    ensures Accounts(users[user := after], Rewrap(creds, rows, primary, anchor, epoch))
  {
    SameOwners(users, creds, users[user := after], Rewrap(creds, rows, primary, anchor, epoch), user);
    RewrapIsSound(users, creds, user, after, rows, primary, anchor, epoch);
  }

  lemma RewrapIsSound(
      users: map<Id, User>, creds: map<Id, Credential>, user: Id, after: User,
      rows: set<Id>, primary: string, anchor: string, epoch: int)
    requires Sound(users, creds) && user in users && rows <= Of(creds, user)
    requires UserOk(after) && users[user].epoch <= after.epoch && 1 <= epoch <= after.epoch
    ensures Sound(users[user := after], Rewrap(creds, rows, primary, anchor, epoch))
  {
    var users', creds' := users[user := after], Rewrap(creds, rows, primary, anchor, epoch);
    forall r | r in creds' ensures EpochOk(users', creds'[r]) {
      assert EpochOk(users, creds[r]);
    }
  }

  lemma SameOwners(
      users: map<Id, User>, creds: map<Id, Credential>, users': map<Id, User>, creds': map<Id, Credential>, user: Id)
    requires EveryUserHasOne(users, creds) && user in users && users'.Keys == users.Keys
    requires forall u :: u in users && users[u].ready ==> users'[u].ready
    requires forall u :: u in users && u != user ==> users'[u] == users[u]
    requires creds'.Keys == creds.Keys && forall r :: r in creds ==> creds'[r].user == creds[r].user
    ensures EveryUserHasOne(users', creds')
  {
    forall u | u in users' ensures HasOne(users'[u].ready, creds', u) {
      assert HasOne(users[u].ready, creds, u);
      assert Of(creds', u) == Of(creds, u);
    }
  }

  lemma DeleteKeeps(users: map<Id, User>, creds: map<Id, Credential>, row: Id, user: Id)
    requires Accounts(users, creds) && row in Of(creds, user) && |Of(creds, user)| != 1
    ensures Accounts(users, creds - {row})
  {
    DeleteCounts(users, creds, row, user);
    forall r | r in creds - {row} ensures EpochOk(users, (creds - {row})[r]) {
      assert EpochOk(users, creds[r]);
    }
  }

  lemma DeleteCounts(users: map<Id, User>, creds: map<Id, Credential>, row: Id, user: Id)
    requires EveryUserHasOne(users, creds) && row in Of(creds, user) && |Of(creds, user)| != 1
    ensures EveryUserHasOne(users, creds - {row})
  {
    forall u | u in users ensures HasOne(users[u].ready, creds - {row}, u) {
      assert HasOne(users[u].ready, creds, u);
      assert Of(creds - {row}, u) == Of(creds, u) - {row};
      if u == user {
        assert |Of(creds, u) - {row}| == |Of(creds, u)| - 1;
      } else {
        assert Of(creds, u) - {row} == Of(creds, u);
      }
    }
  }

  lemma DropUserKeeps(users: map<Id, User>, creds: map<Id, Credential>, user: Id)
    requires Accounts(users, creds)
    ensures Accounts(users - {user}, creds - Of(creds, user))
  {
    var creds' := creds - Of(creds, user);
    forall u | u in users - {user} ensures HasOne(users[u].ready, creds', u) {
      assert HasOne(users[u].ready, creds, u);
      assert Of(creds', u) == Of(creds, u);
    }
    forall r | r in creds' ensures EpochOk(users - {user}, creds'[r]) {
      assert EpochOk(users, creds[r]);
    }
  }

  lemma SetActiveKeeps(users: map<Id, User>, creds: map<Id, Credential>, user: Id, active: bool)
    requires Accounts(users, creds) && user in users
    ensures Accounts(users[user := users[user].(active := active)], creds)
  {
    RewrapKeeps(users, creds, user, users[user].(active := active), {}, "", "", 1);
    assert Rewrap(creds, {}, "", "", 1) == creds;
  }

  ghost predicate AccountsAfter(w: World, a: Action) {
    Accounts(Step(w, a).db.users, Step(w, a).db.creds)
  }

  lemma FinishRegisterKept(w: World, a: Action)
    requires Inv(w) && a.FinishRegister? && Attempt(w, a).Ok?
    ensures AccountsAfter(w, a)
  {
    var c := Credential(w.db.challenges[a.challenge].user, a.credentialId, "", "", 1);
    RegisterCounts(w.db.users, w.db.creds, a.row, c, User(true, false, 1, w.now));
    RegisterIsSound(w.db.users, w.db.creds, a.row, c, User(true, false, 1, w.now));
  }

  lemma FinalizeKept(w: World, a: Action)
    requires Inv(w) && a.Finalize? && Attempt(w, a).Ok?
    ensures AccountsAfter(w, a)
  {
    var users, creds := w.db.users, w.db.creds;
    RewrapKeeps(users, creds, a.user, users[a.user].(ready := true), Of(creds, a.user), a.primary, a.anchor, 1);
  }

  lemma FinishAddKept(w: World, a: Action)
    requires Inv(w) && a.FinishAdd? && Attempt(w, a).Ok?
    ensures AccountsAfter(w, a)
  {
    var c := Credential(a.user, a.p.credentialId, a.p.primary, a.p.anchor, w.db.users[a.user].epoch);
    InsertCounts(w.db.users, w.db.creds, a.p.row, c);
    InsertIsSound(w.db.users, w.db.creds, a.p.row, c);
  }

  lemma ReplaceKeyKept(w: World, a: Action)
    requires Inv(w) && a.ReplaceKey? && Attempt(w, a).Ok?
    ensures AccountsAfter(w, a)
  {
    var rows, epoch := ReplacementShape(w, a);
    RewrapKeeps(w.db.users, w.db.creds, a.user, w.db.users[a.user].(epoch := epoch), rows, a.primary, a.anchor, epoch);
  }

  lemma ReplacementShape(w: World, a: Action) returns (rows: set<Id>, epoch: int)
    requires a.ReplaceKey? && Attempt(w, a).Ok?
    ensures a.user in w.db.users && rows != {} && rows <= Of(w.db.creds, a.user)
    ensures rows == Matching(w.db.creds, a.user, a.credentialId)
    ensures epoch == w.db.users[a.user].epoch + if a.advance then 1 else 0
    ensures a.advance ==> w.db.users[a.user].ready
    ensures Attempt(w, a).value == Db(w.db.users[a.user := w.db.users[a.user].(epoch := epoch)],
                                      Rewrap(w.db.creds, rows, a.primary, a.anchor, epoch), w.db.challenges)
  {
    rows := Matching(w.db.creds, a.user, a.credentialId);
    epoch := w.db.users[a.user].epoch + if a.advance then 1 else 0;
    assert w.db.users[a.user := w.db.users[a.user]] == w.db.users;
  }

  lemma OtherKept(w: World, a: Action)
    requires Inv(w) && Attempt(w, a).Ok?
    requires !a.FinishRegister? && !a.Finalize? && !a.FinishAdd? && !a.ReplaceKey?
    ensures AccountsAfter(w, a)
  {
    if a.Delete? {
      DeleteKeeps(w.db.users, w.db.creds, a.row, a.user);
    } else if a.DropUser? {
      DropUserKeeps(w.db.users, w.db.creds, a.user);
    } else if a.SetActive? {
      SetActiveKeeps(w.db.users, w.db.creds, a.user, a.active);
    }
  }

  lemma AccountsKept(w: World, a: Action)
    requires Inv(w) && Attempt(w, a).Ok?
    ensures AccountsAfter(w, a)
  {
    match a
    case FinishRegister(_, _, _, _) => FinishRegisterKept(w, a);
    case Finalize(_, _, _, _, _) => FinalizeKept(w, a);
    case FinishAdd(_, _, _) => FinishAddKept(w, a);
    case ReplaceKey(_, _, _, _, _) => ReplaceKeyKept(w, a);
    case _ => OtherKept(w, a);
  }

  predicate SameEpoch(users: map<Id, User>, after: map<Id, User>, u: Id) {
    u in users && users[u].ready ==> u in after && after[u].ready && after[u].epoch == users[u].epoch
  }

  /** Only a key replacement moves the epoch of a ready user, and only its own user's. */
  lemma ReadyUsersStand(w: World, a: Action, u: Id)
    requires Attempt(w, a).Ok? && !(a.ReplaceKey? && a.user == u)
    ensures SameEpoch(w.db.users, Step(w, a).db.users, u)
  {
  }

  /** A challenge after a step was there before, as it is or not yet used, or was just begun. */
  lemma ChallengeOrigin(w: World, a: Action, c: Id)
    requires Attempt(w, a).Ok? && c in Step(w, a).db.challenges
    ensures var now := Step(w, a).db.challenges[c];
            || (c in w.db.challenges && (now == w.db.challenges[c] || now == w.db.challenges[c].(used := true)))
            || (a.BeginRegister? && now.purpose == Register)
            || (a.BeginAdd? && IsReady(w.db, now.user) && now.begunAt == w.db.users[now.user].epoch)
  {
  }

  lemma ChallengesKept(w: World, a: Action)
    requires Inv(w) && Attempt(w, a).Ok?
    ensures ChallengesOk(Step(w, a).db.users, Step(w, a).db.challenges, Step(w, a).now)
  {
    var next := Step(w, a);
    forall c | c in next.db.challenges ensures Frozen(next.db.users, next.db.challenges[c], next.now) {
      var now := next.db.challenges[c];
      ChallengeOrigin(w, a, c);
      if c in w.db.challenges {
        assert Frozen(w.db.users, w.db.challenges[c], w.now);
      }
      if a.ReplaceKey? && a.user == now.user {
        ReplacementNeedsNoCeremony(w, a, c);
      } else {
        ReadyUsersStand(w, a, now.user);
      }
    }
  }

  lemma ReplacementNeedsNoCeremony(w: World, a: Action, c: Id)
    requires a.ReplaceKey? && Attempt(w, a).Ok?
    ensures Step(w, a).db.challenges == w.db.challenges && Step(w, a).now == w.now
    ensures c in w.db.challenges ==> !Blocks(w.db.challenges[c], a.user, AddPasskey, w.now)
  {
  }

  lemma StepKeeps(w: World, a: Action)
    requires Inv(w)
    ensures Inv(Step(w, a))
  {
    if Attempt(w, a).Ok? {
      AccountsKept(w, a);
      ChallengesKept(w, a);
    }
  }

  lemma {:induction false} InvHolds(run: seq<Action>)
    ensures Inv(Exec(run))
  {
    if run != [] {
      InvHolds(run[..|run| - 1]);
      StepKeeps(Exec(run[..|run| - 1]), run[|run| - 1]);
    }
  }

  // ---------------------------------------------------------------------------
  // Accounts
  // ---------------------------------------------------------------------------

  /** In every reachable state an account has at least one credential, ready or not, and each of
      its credentials has an epoch between 1 and the account's. */
  lemma AccountsAreSound(run: seq<Action>)
    ensures var db := Exec(run).db; forall u :: u in db.users ==> AccountSound(db, u)
  {
    InvHolds(run);
    var db := Exec(run).db;
    forall u | u in db.users ensures AccountSound(db, u) {
      assert HasOne(db.users[u].ready, db.creds, u);
      assert forall r :: r in db.creds ==> EpochOk(db.users, db.creds[r]);
    }
  }

  ghost predicate AccountSound(db: Db, u: Id)
    requires u in db.users
  {
    |Of(db.creds, u)| >= 1 && forall r :: r in Of(db.creds, u) ==> 1 <= db.creds[r].epoch <= db.users[u].epoch
  }

  /** For an account that exists, finalizing never fails for want of exactly one credential
      unless the account is ready already. */
  lemma FinalizeFindsOneCredential(
      run: seq<Action>, user: Id, primary: string, anchor: string, bundle: bool, a: Attestation)
    requires user in Exec(run).db.users
    ensures FinalizeSetup(Exec(run).db, user, primary, anchor, bundle, a) == Err(NotOneCredential) ==>
              Exec(run).db.users[user].ready
  {
    InvHolds(run);
    assert HasOne(Exec(run).db.users[user].ready, Exec(run).db.creds, user);
  }

  /** A committed epoch advance leaves exactly the re-wrapped credential current, and every other
      credential of the user stale; without the advance no other credential changes. */
  lemma AdvanceLeavesOneCurrent(run: seq<Action>, a: Action)
    requires a.ReplaceKey? && Attempt(Exec(run), a).Ok?
    ensures var before, after := Exec(run).db, Attempt(Exec(run), a).value;
            && Of(after.creds, a.user) == Of(before.creds, a.user)
            && after.users[a.user].epoch == before.users[a.user].epoch + (if a.advance then 1 else 0)
            && (exists r :: r in Of(after.creds, a.user) && after.creds[r].credentialId == a.credentialId)
            && forall r :: r in Of(after.creds, a.user) ==> Replaced(before, after, a, r)
  {
    InvHolds(run);
    var rows, epoch := ReplacementShape(Exec(run), a);
    RewrapLeavesOneCurrent(Exec(run).db, Attempt(Exec(run), a).value, a, rows, epoch);
  }

  lemma RewrapLeavesOneCurrent(before: Db, after: Db, a: Action, rows: set<Id>, epoch: int)
    requires Sound(before.users, before.creds) && a.ReplaceKey? && a.user in before.users
    requires rows == Matching(before.creds, a.user, a.credentialId) && rows != {}
    requires epoch == before.users[a.user].epoch + if a.advance then 1 else 0
    requires after == Db(before.users[a.user := before.users[a.user].(epoch := epoch)],
                         Rewrap(before.creds, rows, a.primary, a.anchor, epoch), before.challenges)
    ensures Of(after.creds, a.user) == Of(before.creds, a.user)
    ensures exists r :: r in Of(after.creds, a.user) && after.creds[r].credentialId == a.credentialId
    ensures forall r :: r in Of(after.creds, a.user) ==> Replaced(before, after, a, r)
  {
    var r :| r in rows;
    assert r in Of(after.creds, a.user) && after.creds[r].credentialId == a.credentialId;
    forall r | r in Of(after.creds, a.user) ensures Replaced(before, after, a, r) {
      assert EpochOk(before.users, before.creds[r]);
    }
  }

  predicate Replaced(before: Db, after: Db, a: Action, r: Id)
    requires a.ReplaceKey? && r in before.creds && r in after.creds && a.user in after.users
  {
    if after.creds[r].credentialId == a.credentialId then
      && after.creds[r].epoch == after.users[a.user].epoch
      && after.creds[r].primary == a.primary
      && after.creds[r].anchor == a.anchor
    else
      after.creds[r] == before.creds[r] && (a.advance ==> after.creds[r].epoch < after.users[a.user].epoch)
  }

  /** The three outcomes of a delete, and what each needs. */
  lemma DeleteOutcomes(db: Db, row: Id, user: Id)
    ensures var r := DeleteCredential(db, row, user);
            && (r.Ok? <==> row in Of(db.creds, user) && exists other :: other in Of(db.creds, user) && other != row)
            && (r == Err(LastCredential) <==> Of(db.creds, user) == {row})
            && (r == Err(CredentialNotFound) <==> row !in Of(db.creds, user))
            && (r.Ok? ==> Of(r.value.creds, user) == Of(db.creds, user) - {row})
  {
    var own := Of(db.creds, user);
    if row in own {
      if |own| == 1 {
        assert |own - {row}| == 0;
        assert own == {row};
      } else {
        assert own - {row} != {} by { assert |own - {row}| == |own| - 1; }
        var other :| other in own - {row};
      }
    }
  }

  // ---------------------------------------------------------------------------
  // The epoch freeze
  // ---------------------------------------------------------------------------

  /** A passkey is only ever added at the epoch its ceremony began with, and carries it. */
  lemma EpochFreeze(run: seq<Action>, c: Id, user: Id, p: NewPasskey)
    requires var w := Exec(run); AddCredentialFinish(w.db, c, user, p, w.now).Ok?
    ensures var w := Exec(run);
            var after := AddCredentialFinish(w.db, c, user, p, w.now).value;
            && c in w.db.challenges
            && w.db.challenges[c].begunAt == w.db.users[user].epoch == after.users[user].epoch == p.a.epoch
            && after.creds[p.row].user == user && after.creds[p.row].epoch == after.users[user].epoch
            && p.row !in w.db.creds && after.creds == w.db.creds[p.row := after.creds[p.row]]
  {
    InvHolds(run);
    assert Frozen(Exec(run).db.users, Exec(run).db.challenges[c], Exec(run).now);
  }

  predicate Begins(a: Action, c: Id) {
    (a.BeginRegister? || a.BeginAdd?) && a.challenge == c
  }

  predicate LivesIn(w: World, c: Id) {
    c in w.db.challenges && Live(w.db.challenges[c], w.now)
  }

  /** A challenge that is live after a step other than its begin was the same and live before. */
  lemma LiveBefore(w: World, a: Action, c: Id)
    requires LivesIn(Step(w, a), c) && !Begins(a, c)
    ensures LivesIn(w, c) && w.db.challenges[c] == Step(w, a).db.challenges[c]
  {
  }

  /** While a ceremony can still finish, every attempt to replace a wrapped key of its user is
      refused: if the challenge is live after `run + more` and not begun again in `more`, then it
      was live all along. */
  lemma {:induction false} CeremonyBlocksReplacement(run: seq<Action>, more: seq<Action>, c: Id, k: nat)
    requires LivesIn(Exec(run + more), c) && Exec(run + more).db.challenges[c].purpose == AddPasskey
    requires k <= |more| && forall i :: 0 <= i < |more| ==> !Begins(more[i], c)
    ensures LivesIn(Exec(run + more[..k]), c)
    ensures Exec(run + more[..k]).db.challenges[c] == Exec(run + more).db.challenges[c]
    ensures k < |more| && more[k].ReplaceKey? && more[k].user == Exec(run + more).db.challenges[c].user ==>
              Attempt(Exec(run + more[..k]), more[k]) == Err(CeremonyPending)
    decreases |more| - k
  {
    if k == |more| {
      assert more[..k] == more;
    } else {
      CeremonyBlocksReplacement(run, more, c, k + 1);
      var so := run + more[..k];
      assert (run + more[..k + 1])[..|so|] == so && (run + more[..k + 1])[|so|] == more[k];
      LiveBefore(Exec(so), more[k], c);
      var w := Exec(so);
      assert Blocks(w.db.challenges[c], w.db.challenges[c].user, AddPasskey, w.now);
    }
  }

  // ---------------------------------------------------------------------------
  // The life of an account
  // ---------------------------------------------------------------------------

  lemma Extend(w: World, run: seq<Action>, a: Action) returns (w': World, run': seq<Action>)
    requires Exec(run) == w
    ensures run' == run + [a] && w' == Step(w, a) && Exec(run') == w'
  {
    run', w' := run + [a], Step(w, a);
    assert run'[..|run'| - 1] == run;
  }

  /** A user registers. */
  lemma Registered() returns (w: World, run: seq<Action>)
    ensures Exec(run) == w && w.now == 5
    ensures w.db.users == map["u" := User(true, false, 1, 5)]
    ensures w.db.creds == map["r" := Credential("u", "k", "", "", 1)]
    ensures w.db.challenges == map["c" := Challenge(Register, "u", 10, true, true, 0)]
  {
    w, run := Extend(START, [], BeginRegister("c", "u", 10, true));
    w, run := Extend(w, run, Tick(5));
    w, run := Extend(w, run, FinishRegister("c", true, "r", "k"));
  }

  /** The sign-up is finished. */
  lemma SignedUp() returns (w: World, run: seq<Action>)
    ensures Exec(run) == w && w.now == 5
    ensures w.db.users == map["u" := User(true, true, 1, 5)]
    ensures w.db.creds == map["r" := Credential("u", "k", "p", "a", 1)]
    ensures w.db.challenges == map["c" := Challenge(Register, "u", 10, true, true, 0)]
  {
    w, run := Registered();
    assert Of(w.db.creds, "u") == {"r"} && "r" in Matching(w.db.creds, "u", "k");
    assert "k" in CredentialIds(w.db.creds, "u") by {
      assert w.db.creds["r"].credentialId == "k";
    }
    w, run := Extend(w, run, Finalize("u", "p", "a", true, Attestation("", true, "u", "k", 1)));
  }

  /** A second passkey is added at the same epoch. */
  lemma WithTwoPasskeys() returns (w: World, run: seq<Action>)
    ensures Exec(run) == w && w.now == 5
    ensures w.db.users == map["u" := User(true, true, 1, 5)]
    ensures w.db.creds == map["r" := Credential("u", "k", "p", "a", 1), "s" := Credential("u", "l", "q", "b", 1)]
    ensures forall c :: c in w.db.challenges ==> w.db.challenges[c].used || w.db.challenges[c].purpose == Register
  {
    w, run := SignedUp();
    w, run := Extend(w, run, BeginAdd("d", "u", 10, true));
    assert Matching(w.db.creds, "u", "l") == {};
    w, run := Extend(w, run,
      FinishAdd("d", "u", NewPasskey(true, "s", "l", "q", "b", Attestation("", true, "u", "l", 1))));
  }

  /** An account from its registration on: signed up, given a second passkey, its key replaced with an
      advance, which leaves the first passkey stale, and disabled. */
  lemma AccountLives() returns (run: seq<Action>)
    ensures var db := Exec(run).db;
            && db.users == map["u" := User(false, true, 2, 5)]
            && db.creds == map["r" := Credential("u", "k", "p", "a", 1), "s" := Credential("u", "l", "x", "y", 2)]
  {
    var w;
    w, run := WithTwoPasskeys();
    assert !HasPendingChallenge(w.db, "u", AddPasskey, w.now);
    assert Matching(w.db.creds, "u", "l") == {"s"};
    w, run := Extend(w, run, ReplaceKey("u", "l", true, "x", "y"));
    w, run := Extend(w, run, SetActive("u", false));
  }
}
