/** Signing-key slots: one row per user, algorithm and label, created by hand or stored by a
    signature, and published with a proof signed by the user's anchor. */
module SigningKeys {
  import opened Prelude

  type Id = string

  datatype Slot = Slot(user: Id, algorithm: string, keyLabel: string)

  datatype Proof = Proof(payload: string, es384: string, mldsa87: string) {
    predicate Complete() {
      payload != "" && es384 != "" && mldsa87 != ""
    }
  }

  const NO_PROOF := Proof("", "", "")

  datatype Row = Row(id: Id, jwk: string, published: bool, proof: Proof) {
    /** What auto-store leaves alone. */
    predicate Locked() {
      published || proof.payload != ""
    }
  }

  /** The table, by its unique slot; the primary key `id` is unique across slots too. */
  type Table = map<Slot, Row>

  /** What the signed body of a proof claims. */
  datatype Claims = Claims(version: int, slot: Slot, id: Id)

  const VERSION := 1

  /** The parser of signed bodies, and the thumbprint of a key, which is its id. */
  datatype Library = Library(parse: string -> Option<Claims>, thumbprint: string -> Id)

  datatype Error = ProofRequired | ProofRejected | SlotTaken | IdTaken | NotFound | NotForAutoStore

  // ---------------------------------------------------------------------------
  // Statements
  // ---------------------------------------------------------------------------

  predicate IdUsed(t: Table, id: Id) {
    exists s :: s in t && t[s].id == id
  }

  predicate IdUsedElsewhere(t: Table, id: Id, slot: Slot) {
    exists s :: s in t && s != slot && t[s].id == id
  }

  function Create(t: Table, slot: Slot, row: Row): Result<Table, Error> {
    if slot in t then Err(SlotTaken)
    else if IdUsed(t, row.id) then Err(IdTaken)
    else Ok(t[slot := row])
  }

  /** Inserts an unproven row, or gives the slot's unlocked row a new id and key; a partial proof
      it may hold stays. */
  function AutoStore(t: Table, slot: Slot, id: Id, jwk: string): Result<Table, Error> {
    if slot !in t then Create(t, slot, Row(id, jwk, false, NO_PROOF))
    else if t[slot].Locked() then Err(SlotTaken)
    else if IdUsedElsewhere(t, id, slot) then Err(IdTaken)
    else Ok(t[slot := t[slot].(id := id, jwk := jwk)])
  }

  /** The slot of the row with this id, if the user owns it. */
  function Owned(t: Table, user: Id, id: Id): set<Slot> {
    set s | s in t && s.user == user && t[s].id == id
  }

  function SetPublished(t: Table, user: Id, id: Id, published: bool): Result<Table, Error> {
    var owned := Owned(t, user, id);
    if owned == {} then Err(NotFound)
    else Ok(map s | s in t :: if s in owned then t[s].(published := published) else t[s])
  }

  function StoreProof(t: Table, user: Id, id: Id, proof: Proof): Result<Table, Error> {
    var owned := Owned(t, user, id);
    if !proof.Complete() then Err(ProofRequired)
    else if owned == {} then Err(NotFound)
    else Ok(map s | s in t :: if s in owned then t[s].(proof := proof) else t[s])
  }

  function Delete(t: Table, user: Id, id: Id): Result<Table, Error> {
    var owned := Owned(t, user, id);
    if owned == {} then Err(NotFound) else Ok(t - owned)
  }

  // ---------------------------------------------------------------------------
  // Transactions
  // ---------------------------------------------------------------------------

  /** The checks on a supplied proof; `genuine` is the verdict on signatures, time and epoch. */
  predicate Accepts(lib: Library, proof: Proof, slot: Slot, id: Id, genuine: bool) {
    && proof.Complete()
    && lib.parse(proof.payload) == Some(Claims(VERSION, slot, id))
    && genuine
  }

  function CreateKey(t: Table, lib: Library, slot: Slot, jwk: string, published: bool, proof: Proof, genuine: bool)
    : Result<Table, Error>
  {
    var id := lib.thumbprint(jwk);
    if published && !proof.Complete() then Err(ProofRequired)
    else if proof.Complete() && !Accepts(lib, proof, slot, id, genuine) then Err(ProofRejected)
    else Create(t, slot, Row(id, jwk, published, proof))
  }

  function UpdateKey(t: Table, lib: Library, user: Id, id: Id, published: bool, proof: Proof, genuine: bool)
    : Result<Table, Error>
  {
    if Owned(t, user, id) == {} then Err(NotFound)
    else if proof.Complete() then
      if exists s :: s in Owned(t, user, id) && !Accepts(lib, proof, s, id, genuine) then Err(ProofRejected)
      else
        var stored :- StoreProof(t, user, id, proof);
        SetPublished(stored, user, id, published)
    else if published && exists s :: s in Owned(t, user, id) && !t[s].proof.Complete() then Err(ProofRequired)
    else SetPublished(t, user, id, published)
  }

  /** Every other slot holds what it held. */
  predicate OnlySlotChanged(before: Table, after: Table, slot: Slot) {
    && (forall s :: s in before && s != slot ==> s in after && after[s] == before[s])
    && forall s :: s in after && s != slot ==> s in before
  }

  ghost predicate IdsUnique(t: Table) {
    forall s, u :: s in t && u in t && t[s].id == t[u].id ==> s == u
  }

  class SigningKeyStore {
    var rows: Table
    const lib: Library

    constructor (lib: Library)
      ensures rows == map[] && this.lib == lib
    {
      rows, this.lib := map[], lib;
    }

    method CreateSigningKey(slot: Slot, jwk: string, published: bool, proof: Proof, genuine: bool)
      returns (error: Option<Error>)
      modifies this
      ensures var r := CreateKey(old(rows), lib, slot, jwk, published, proof, genuine);
              if r.Ok? then error.None? && rows == r.value else error == Some(r.error) && rows == old(rows)
      ensures OnlySlotChanged(old(rows), rows, slot) && (old(IdsUnique(rows)) ==> IdsUnique(rows))
      ensures error.None? ==> slot !in old(rows) && slot in rows && rows[slot].jwk == jwk
      ensures error.None? && published ==> Accepts(lib, rows[slot].proof, slot, rows[slot].id, genuine)
    {
      var id := lib.thumbprint(jwk);
      if published && !proof.Complete() {
        return Some(ProofRequired);
      }
      if proof.Complete() {
        var ok := VerifyPublicationProof(proof, slot, id, genuine);
        if !ok {
          return Some(ProofRejected);
        }
      }
      if slot in rows {
        return Some(SlotTaken);
      }
      if IdUsed(rows, id) {
        return Some(IdTaken);
      }
      rows := rows[slot := Row(id, jwk, published, proof)];
      return None;
    }

    method VerifyPublicationProof(proof: Proof, slot: Slot, id: Id, genuine: bool) returns (ok: bool)
      ensures ok == Accepts(lib, proof, slot, id, genuine)
    {
      if proof.payload == "" || proof.es384 == "" || proof.mldsa87 == "" {
        return false;
      }
      var claims := lib.parse(proof.payload);
      if claims.None? || claims.value.version != VERSION {
        return false;
      }
      var c := claims.value;
      if c.slot.user != slot.user || c.slot.algorithm != slot.algorithm || c.slot.keyLabel != slot.keyLabel
          || c.id != id {
        return false;
      }
      return genuine;
    }

    method AutoStoreUnpublished(slot: Slot, jwk: string) returns (error: Option<Error>)
      modifies this
      ensures var r := AutoStore(old(rows), slot, lib.thumbprint(jwk), jwk);
              if r.Ok? then error.None? && rows == r.value else error == Some(r.error) && rows == old(rows)
      ensures OnlySlotChanged(old(rows), rows, slot) && (old(IdsUnique(rows)) ==> IdsUnique(rows))
      ensures slot in old(rows) && old(rows)[slot].Locked() ==> error == Some(SlotTaken)
      ensures error.None? ==> slot in rows && rows[slot].jwk == jwk && !rows[slot].Locked()
    {
      var id := lib.thumbprint(jwk);
      if slot !in rows {
        if IdUsed(rows, id) {
          return Some(IdTaken);
        }
        rows := rows[slot := Row(id, jwk, false, NO_PROOF)];
      } else {
        if rows[slot].published || rows[slot].proof.payload != "" {
          return Some(SlotTaken);
        }
        if IdUsedElsewhere(rows, id, slot) {
          return Some(IdTaken);
        }
        rows := rows[slot := rows[slot].(id := id, jwk := jwk)];
      }
      return None;
    }

    /** The update handler's transaction over the row the user owns, rolled back on an error. */
    method UpdateSigningKey(slot: Slot, id: Id, published: bool, proof: Proof, genuine: bool)
      returns (error: Option<Error>)
      requires forall s :: s in Owned(rows, slot.user, id) ==> s == slot
      modifies this
      ensures var r := UpdateKey(old(rows), lib, slot.user, id, published, proof, genuine);
              if r.Ok? then error.None? && rows == r.value else error == Some(r.error) && rows == old(rows)
      ensures OnlySlotChanged(old(rows), rows, slot) && rows.Keys == old(rows).Keys
      ensures error.None? ==> slot in rows && rows[slot].id == id && rows[slot].jwk == old(rows)[slot].jwk
      ensures error.None? && published ==>
                rows[slot].proof.Complete() &&
                (rows[slot].proof == old(rows)[slot].proof || Accepts(lib, rows[slot].proof, slot, id, genuine))
    {
      if slot !in rows || rows[slot].id != id {
        return Some(NotFound);
      }
      assert Owned(rows, slot.user, id) == {slot};
      if proof.Complete() {
        var ok := VerifyPublicationProof(proof, slot, id, genuine);
        if !ok {
          return Some(ProofRejected);
        }
        rows := rows[slot := rows[slot].(proof := proof)];
      } else if published && !rows[slot].proof.Complete() {
        return Some(ProofRequired);
      }
      rows := rows[slot := rows[slot].(published := published)];
      return None;
    }
  }

  // ---------------------------------------------------------------------------
  // What each transaction needs, in the order it is asked for, and all that it changes
  // ---------------------------------------------------------------------------

  predicate AllFields(p: Proof) {
    |p.payload| > 0 && |p.es384| > 0 && |p.mldsa87| > 0
  }

  /** The signed body says version 1, and names this user, algorithm, label and id. */
  predicate Names(lib: Library, proof: Proof, slot: Slot, id: Id) {
    && lib.parse(proof.payload).Some?
    && var c := lib.parse(proof.payload).value;
       && c.version == 1 && c.slot.user == slot.user && c.slot.algorithm == slot.algorithm
       && c.slot.keyLabel == slot.keyLabel && c.id == id
  }

  /** A key is created with the flag and the proof it was given, in a free slot and under a free id. */
  lemma CreateIff(
      t: Table, lib: Library, slot: Slot, jwk: string, published: bool, proof: Proof, genuine: bool)
    ensures var id := lib.thumbprint(jwk);
            CreateKey(t, lib, slot, jwk, published, proof, genuine) ==
              if published && !AllFields(proof) then Err(ProofRequired)
              else if AllFields(proof) && !(genuine && Names(lib, proof, slot, id)) then Err(ProofRejected)
              else if slot in t then Err(SlotTaken)
              else if exists s :: s in t && t[s].id == id then Err(IdTaken)
              else Ok(t[slot := Row(id, jwk, published, proof)])
  {
  }

  /** Auto-storing fills a free slot with an unpublished row without a proof, or gives the id and the
      key of a row that is neither published nor has a payload to the new key; the rest of it stays. */
  lemma AutoStoreIff(t: Table, slot: Slot, id: Id, jwk: string)
    ensures AutoStore(t, slot, id, jwk) ==
              if slot in t && (t[slot].published || |t[slot].proof.payload| > 0) then Err(SlotTaken)
              else if exists s :: s in t && s != slot && t[s].id == id then Err(IdTaken)
              else if slot in t then Ok(t[slot := Row(id, jwk, false, t[slot].proof)])
              else Ok(t[slot := Row(id, jwk, false, Proof("", "", ""))])
  {
  }

  predicate OnlyRow(t: Table, user: Id, id: Id, slot: Slot) {
    slot in t && forall s :: s in t ==> (s.user == user && t[s].id == id <==> s == slot)
  }

  /** An update of the one row the user owns under this id stores a complete proof, if given one, and
      the flag. */
  lemma UpdateIff(
      t: Table, lib: Library, user: Id, id: Id, slot: Slot, published: bool, proof: Proof, genuine: bool)
    requires OnlyRow(t, user, id, slot)
    ensures UpdateKey(t, lib, user, id, published, proof, genuine) ==
              if AllFields(proof) then
                if genuine && Names(lib, proof, slot, id) then Ok(t[slot := Row(id, t[slot].jwk, published, proof)])
                else Err(ProofRejected)
              else if published && !AllFields(t[slot].proof) then Err(ProofRequired)
              else Ok(t[slot := Row(id, t[slot].jwk, published, t[slot].proof)])
  {
    assert Owned(t, user, id) == {slot};
    var r := UpdateKey(t, lib, user, id, published, proof, genuine);
    if r.Ok? {
      var held := if AllFields(proof) then proof else t[slot].proof;
      assert r.value == t[slot := Row(id, t[slot].jwk, published, held)];
    }
  }

  /** Without such a row an update or a delete finds nothing; a delete takes the row away. */
  lemma OwnershipDecides(
      t: Table, lib: Library, user: Id, id: Id, published: bool, proof: Proof, genuine: bool)
    ensures var owner := exists s :: s in t && s.user == user && t[s].id == id;
            && (UpdateKey(t, lib, user, id, published, proof, genuine) == Err(NotFound) <==> !owner)
            && (SetPublished(t, user, id, published) == Err(NotFound) <==> !owner)
            && (StoreProof(t, user, id, proof) == Err(ProofRequired) <==> !AllFields(proof))
            && (StoreProof(t, user, id, proof) == Err(NotFound) <==> AllFields(proof) && !owner)
            && Delete(t, user, id) ==
                 if owner then Ok(map s | s in t && !(s.user == user && t[s].id == id) :: t[s]) else Err(NotFound)
  {
    if s :| s in t && s.user == user && t[s].id == id {
      assert s in Owned(t, user, id);
      assert t - Owned(t, user, id) == map s | s in t && !(s.user == user && t[s].id == id) :: t[s];
    }
  }

  // ---------------------------------------------------------------------------
  // Runs
  // ---------------------------------------------------------------------------

  datatype Action =
    | CreateAction(slot: Slot, jwk: string, published: bool, proof: Proof, genuine: bool)
    | UpdateAction(user: Id, id: Id, published: bool, proof: Proof, genuine: bool)
    | AutoStoreAction(slot: Slot, jwk: string)
    | DeleteAction(user: Id, id: Id)
    /** A deleted user takes the keys along. */
    | DropUser(user: Id)

  /** `accepted` is history: the proofs whose verification once succeeded, and for what. */
  datatype World = World(rows: Table, accepted: set<(Proof, Slot, Id)>)

  function Attempt(w: World, a: Action, lib: Library): Result<Table, Error> {
    match a
    case CreateAction(slot, jwk, published, proof, genuine) =>
      CreateKey(w.rows, lib, slot, jwk, published, proof, genuine)
    case UpdateAction(user, id, published, proof, genuine) =>
      UpdateKey(w.rows, lib, user, id, published, proof, genuine)
    case AutoStoreAction(slot, jwk) => AutoStore(w.rows, slot, lib.thumbprint(jwk), jwk)
    case DeleteAction(user, id) => Delete(w.rows, user, id)
    case DropUser(user) => Ok(map s | s in w.rows && s.user != user :: w.rows[s])
  }

  function NewlyAccepted(w: World, a: Action, lib: Library): set<(Proof, Slot, Id)> {
    match a
    case CreateAction(slot, jwk, _, proof, genuine) =>
      if Accepts(lib, proof, slot, lib.thumbprint(jwk), genuine) then {(proof, slot, lib.thumbprint(jwk))} else {}
    case UpdateAction(user, id, _, proof, genuine) =>
      set s | s in Owned(w.rows, user, id) && Accepts(lib, proof, s, id, genuine) :: (proof, s, id)
    case _ => {}
  }

  function Step(w: World, a: Action, lib: Library): World {
    var r := Attempt(w, a, lib);
    World(if r.Ok? then r.value else w.rows, w.accepted + NewlyAccepted(w, a, lib))
  }

  function Run(w: World, run: seq<Action>, lib: Library): World
    decreases |run|
  {
    if run == [] then w else Run(Step(w, run[0], lib), run[1..], lib)
  }

  const START := World(map[], {})

  /** What holds of every row: its id is the thumbprint of its key, a published row has a complete
      proof, and a complete proof was verified for exactly this slot and id. */
  predicate RowOk(w: World, lib: Library, slot: Slot, row: Row) {
    && row.id == lib.thumbprint(row.jwk)
    && (row.published ==> row.proof.Complete())
    && (row.proof.Complete() ==> (row.proof, slot, row.id) in w.accepted)
  }

  /** Only complete proofs were ever accepted, each for the row its signed body names. */
  ghost predicate AcceptedOk(accepted: set<(Proof, Slot, Id)>, lib: Library) {
    forall proof, slot, id :: (proof, slot, id) in accepted ==>
      proof.Complete() && lib.parse(proof.payload) == Some(Claims(VERSION, slot, id))
  }

  ghost predicate Inv(w: World, lib: Library) {
    && (forall s :: s in w.rows ==> RowOk(w, lib, s, w.rows[s]))
    && IdsUnique(w.rows)
    && AcceptedOk(w.accepted, lib)
  }

  lemma RowsKept(w: World, a: Action, lib: Library)
    requires Inv(w, lib) && Attempt(w, a, lib).Ok?
    ensures var next := Step(w, a, lib); forall s :: s in next.rows ==> RowOk(next, lib, s, next.rows[s])
  {
    var next := Step(w, a, lib);
    forall s | s in next.rows ensures RowOk(next, lib, s, next.rows[s]) {
      if s in w.rows {
        assert RowOk(w, lib, s, w.rows[s]);
      }
      if a.UpdateAction? {
        UpdatedRow(w.rows, lib, a.user, a.id, a.published, a.proof, a.genuine, s);
      }
    }
  }

  /** A row after an update: another row is as it was, an owned one keeps key and id and holds
      either the proof it had or one that was just accepted. */
  lemma UpdatedRow(t: Table, lib: Library, user: Id, id: Id, published: bool, proof: Proof, genuine: bool, s: Slot)
    requires UpdateKey(t, lib, user, id, published, proof, genuine).Ok? && s in t
    ensures var after := UpdateKey(t, lib, user, id, published, proof, genuine).value;
            && s in after
            && (s !in Owned(t, user, id) ==> after[s] == t[s])
            && (s in Owned(t, user, id) ==>
                  var held := if proof.Complete() then proof else t[s].proof;
                  && after[s] == Row(id, t[s].jwk, published, held)
                  && (published ==> held.Complete())
                  && (proof.Complete() ==> Accepts(lib, proof, s, id, genuine)))
  {
  }

  lemma IdsKept(w: World, a: Action, lib: Library)
    requires Inv(w, lib) && Attempt(w, a, lib).Ok?
    ensures IdsUnique(Attempt(w, a, lib).value)
  {
    var after := Attempt(w, a, lib).value;
    if a.UpdateAction? {
      UpdateMovesNoId(w.rows, lib, a.user, a.id, a.published, a.proof, a.genuine);
      forall s, u | s in after && u in after && after[s].id == after[u].id ensures s == u {
        assert w.rows[s].id == w.rows[u].id;
      }
    } else if a.DropUser? {
      assert forall s :: s in after ==> s in w.rows && after[s] == w.rows[s];
    }
  }

  lemma UpdateMovesNoId(t: Table, lib: Library, user: Id, id: Id, published: bool, proof: Proof, genuine: bool)
    requires UpdateKey(t, lib, user, id, published, proof, genuine).Ok?
    ensures var after := UpdateKey(t, lib, user, id, published, proof, genuine).value;
            after.Keys == t.Keys && forall s :: s in t ==> after[s].id == t[s].id
  {
  }

  lemma StepKeeps(w: World, a: Action, lib: Library)
    requires Inv(w, lib)
    ensures Inv(Step(w, a, lib), lib)
  {
    if Attempt(w, a, lib).Ok? {
      RowsKept(w, a, lib);
      IdsKept(w, a, lib);
    }
  }

  lemma {:induction false} InvKept(w: World, run: seq<Action>, lib: Library)
    requires Inv(w, lib)
    ensures Inv(Run(w, run, lib), lib)
    decreases |run|
  {
    if run != [] {
      StepKeeps(w, run[0], lib);
      InvKept(Step(w, run[0], lib), run[1..], lib);
    }
  }

  // ---------------------------------------------------------------------------
  // Slots
  // ---------------------------------------------------------------------------

  /** A row the public endpoint serves carries a proof that was verified, whose signed body names
      exactly this row's user, algorithm, label and key id. Any row's proof was verified if and only
      if it is complete: a locked slot is proven exactly when none of the three fields is empty. */
  lemma PublishedIsProven(run: seq<Action>, lib: Library, slot: Slot)
    requires slot in Run(START, run, lib).rows
    ensures var w := Run(START, run, lib);
            var row := w.rows[slot];
            && row.id == lib.thumbprint(row.jwk)
            && (row.published ==> row.proof.Complete())
            && ((row.proof, slot, row.id) in w.accepted <==> row.proof.Complete())
            && (row.proof.Complete() ==> lib.parse(row.proof.payload) == Some(Claims(VERSION, slot, row.id)))
            && (row.published ==> row.Locked())
  {
    InvKept(START, run, lib);
    assert RowOk(Run(START, run, lib), lib, slot, Run(START, run, lib).rows[slot]);
  }

  /** Does this step remove the row of the slot? */
  predicate Removes(w: World, a: Action, slot: Slot) {
    slot in w.rows && ((a.DeleteAction? && slot in Owned(w.rows, a.user, a.id)) || (a.DropUser? && slot.user == a.user))
  }

  predicate KeepsKey(before: Row, after: Row) {
    after.id == before.id && after.jwk == before.jwk && after.Locked()
  }

  lemma LockedStepKeeps(w: World, a: Action, lib: Library, slot: Slot)
    requires Inv(w, lib) && slot in w.rows && w.rows[slot].Locked() && !Removes(w, a, slot)
    ensures slot in Step(w, a, lib).rows && KeepsKey(w.rows[slot], Step(w, a, lib).rows[slot])
    ensures a.AutoStoreAction? && a.slot == slot ==> Attempt(w, a, lib) == Err(SlotTaken)
  {
    assert RowOk(w, lib, slot, w.rows[slot]);
    if a.UpdateAction? && Attempt(w, a, lib).Ok? {
      UpdatedRow(w.rows, lib, a.user, a.id, a.published, a.proof, a.genuine, slot);
    }
  }

  ghost predicate NeverRemoved(w: World, run: seq<Action>, lib: Library, slot: Slot)
    decreases |run|
  {
    run != [] ==> !Removes(w, run[0], slot) && NeverRemoved(Step(w, run[0], lib), run[1..], lib, slot)
  }

  lemma {:induction false} LockedRunKeeps(w: World, run: seq<Action>, lib: Library, slot: Slot)
    requires Inv(w, lib) && slot in w.rows && w.rows[slot].Locked() && NeverRemoved(w, run, lib, slot)
    ensures slot in Run(w, run, lib).rows && KeepsKey(w.rows[slot], Run(w, run, lib).rows[slot])
    decreases |run|
  {
    if run != [] {
      LockedStepKeeps(w, run[0], lib, slot);
      StepKeeps(w, run[0], lib);
      LockedRunKeeps(Step(w, run[0], lib), run[1..], lib, slot);
    }
  }

  /** A locked slot keeps its id and its key, and stays locked, until its row is deleted. */
  lemma LockedSlotKeepsItsKey(run: seq<Action>, more: seq<Action>, lib: Library, slot: Slot)
    requires var w := Run(START, run, lib);
             slot in w.rows && w.rows[slot].Locked() && NeverRemoved(w, more, lib, slot)
    ensures var w := Run(START, run, lib);
            slot in Run(w, more, lib).rows && KeepsKey(w.rows[slot], Run(w, more, lib).rows[slot])
  {
    InvKept(START, run, lib);
    LockedRunKeeps(Run(START, run, lib), more, lib, slot);
  }

  /** A row created unpublished may hold two thirds of a proof: the slot is locked, and nothing
      about it was verified. */
  lemma PartialProofLocksUnverified(lib: Library, slot: Slot, jwk: string)
    ensures var w := Run(START, [CreateAction(slot, jwk, false, Proof("body", "sig", ""), false)], lib);
            && slot in w.rows && w.rows[slot].Locked() && !w.rows[slot].proof.Complete()
            && w.accepted == {}
  {
    var a := CreateAction(slot, jwk, false, Proof("body", "sig", ""), false);
    assert [a][1..] == [];
    assert Run(START, [a], lib) == Step(START, a, lib);
  }
}
