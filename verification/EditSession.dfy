/** The polling loop of an edit session: it re-encrypts the temporary file whenever it changed. */
module EditSession {
  import opened JweFile
  import opened Prelude
  import opened Text

  /** What reading the temporary file gives. */
  datatype Read = Contents(bytes: seq<Byte>) | Gone | Unreadable

  /** One poll: what was read, whether the modification time then differs from the first one, the
      fresh nonce, and whether the file system lets the save through. */
  datatype Poll = Poll(read: Read, touched: bool, iv: seq<Byte>, writable: bool)

  /** The encrypted file decrypts to these contents. */
  predicate Holds(enc: Option<string>, bytes: seq<Byte>, key: seq<Byte>, lib: Library) {
    enc.Some? && Decrypt(enc.value, key, lib) == Ok(bytes)
  }

  /** The hash tells these contents apart. */
  predicate Distinguishes(hash: seq<Byte> -> string, seen: set<seq<Byte>>) {
    forall a, b :: a in seen && b in seen && hash(a) == hash(b) ==> a == b
  }

  /** All that a session ever hashes. */
  function Seen(plain: seq<Byte>, polls: seq<Poll>): set<seq<Byte>> {
    {plain} + set i | 0 <= i < |polls| && polls[i].read.Contents? :: polls[i].read.bytes
  }

  /** Nobody ever wrote the temporary file. */
  predicate Untouched(plain: seq<Byte>, polls: seq<Poll>) {
    forall i :: 0 <= i < |polls| && polls[i].read.Contents? ==> polls[i].read.bytes == plain && !polls[i].touched
  }

  lemma Sealed(file: EncryptedFile, iv: seq<Byte>, plain: seq<Byte>, data: string)
    requires file.lib.Lawful() && KeySize(file.contentKey) && |iv| == NONCE
    requires data == JoinWith(Parts(file.info, file.contentKey, iv, plain, file.lib), '.') + "\n"
    ensures Holds(Some(data), plain, file.contentKey, file.lib)
  {
    DecryptUndoesSerialize(file.info, file.contentKey, iv, plain, file.lib);
  }

  class Session {
    const file: EncryptedFile
    const hash: seq<Byte> -> string
    /** The encrypted file on disk; none before the first save of a new one. */
    var enc: Option<string>
    var savedHash: string
    var saved: bool
    var saveCount: nat
    /** The contents the session began with, and whether the encrypted file is new. */
    ghost const initial: seq<Byte>
    ghost const isNew: bool
    /** What the session may read, and what it last saved, or began with. */
    ghost const seen: set<seq<Byte>>
    ghost var last: seq<Byte>

    ghost predicate Valid()
      reads this
    {
      && file.lib.Lawful() && KeySize(file.contentKey)
      && last in seen && savedHash == hash(last) && Distinguishes(hash, seen)
      && (saved <==> saveCount > 0)
      && if saved then Holds(enc, last, file.contentKey, file.lib)
         else last == initial && if isNew then enc.None? else Holds(enc, initial, file.contentKey, file.lib)
    }

    /** These contents differ from the last saved, or somebody wrote the file and nothing is saved. */
    ghost predicate ToSave(p: Poll)
      reads this
    {
      p.read.Contents? && (p.read.bytes != last || (!saved && p.touched))
    }

    constructor (
        file: EncryptedFile, hash: seq<Byte> -> string, plain: seq<Byte>, existing: Option<string>,
        ghost seen: set<seq<Byte>>)
      requires file.lib.Lawful() && KeySize(file.contentKey) && plain in seen && Distinguishes(hash, seen)
      requires existing.Some? ==> Holds(existing, plain, file.contentKey, file.lib)
      ensures Valid() && this.file == file && this.hash == hash
      ensures initial == plain && isNew == existing.None? && this.seen == seen
      ensures enc == existing && saveCount == 0 && last == plain
    {
      this.file, this.hash, enc, savedHash, saved, saveCount := file, hash, existing, hash(plain), false, 0;
      initial, isNew, this.seen, last := plain, existing.None?, seen, plain;
    }

    /** Saves unless the contents are those of the last save, or those of the start and nobody
        wrote the file. Writing is atomic: a failed save leaves the encrypted file as it was. */
    method SaveIfChanged(p: Poll) returns (ok: bool)
      requires Valid() && |p.iv| == NONCE && (p.read.Contents? ==> p.read.bytes in seen)
      modifies this
      ensures Valid()
      ensures ok && p.read.Contents? ==>
                || Holds(enc, p.read.bytes, file.contentKey, file.lib)
                || (isNew && enc.None? && saveCount == 0 && p.read.bytes == initial && !p.touched)
      ensures ok <==> !p.read.Unreadable? && (old(ToSave(p)) ==> p.writable)
      ensures saveCount == old(saveCount) + if ok && old(ToSave(p)) then 1 else 0
      ensures saveCount == old(saveCount) ==> enc == old(enc) && last == old(last)
      ensures saveCount > old(saveCount) ==> last == p.read.bytes && Holds(enc, last, file.contentKey, file.lib)
    {
      if p.read.Gone? {
        return true;
      }
      if p.read.Unreadable? {
        return false;
      }
      var plain := p.read.bytes;
      var now := hash(plain);
      if now == savedHash && (saved || !p.touched) {
        return true;
      }
      var data := file.Serialize(p.iv, plain);
      if data.Err? || !p.writable {
        return false;
      }
      Sealed(file, p.iv, plain, data.value);
      enc := Some(data.value);
      savedHash := now;
      saved := true;
      saveCount := saveCount + 1;
      last := plain;
      return true;
    }
  }

  /** A whole session: polls while the editor runs, whose errors are only logged, and one more save
      after it exited. When it ends without error and its temporary file is still there, the
      encrypted file decrypts to the last contents, except for a new file nobody ever wrote. */
  method Run(
      key: seq<Byte>, info: KeyInfo, lib: Library, hash: seq<Byte> -> string, plain: seq<Byte>,
      existing: Option<string>, polls: seq<Poll>, last: Poll, editorFailed: bool)
    returns (enc: Option<string>, ok: bool)
    requires lib.Lawful() && KeySize(key) && Distinguishes(hash, Seen(plain, polls + [last]))
    requires existing.Some? ==> Holds(existing, plain, key, lib)
    requires |last.iv| == NONCE && forall i :: 0 <= i < |polls| ==> |polls[i].iv| == NONCE
    ensures ok && last.read.Contents? ==>
              || Holds(enc, last.read.bytes, key, lib)
              || (existing.None? && enc.None? && last.read.bytes == plain && !last.touched)
    ensures existing.Some? ==> enc.Some?
    ensures Untouched(plain, polls + [last]) ==> enc == existing
    ensures enc.Some? ==> exists bytes :: Holds(enc, bytes, key, lib)
  {
    var file := new EncryptedFile(key, info, lib);
    var session := new Session(file, hash, plain, existing, Seen(plain, polls + [last]));
    for i := 0 to |polls|
      invariant fresh(session) && session.Valid() && session.file == file && session.hash == hash
      invariant session.initial == plain && session.isNew == existing.None?
      invariant session.seen == Seen(plain, polls + [last])
      invariant Untouched(plain, polls + [last]) ==> session.enc == existing && session.last == plain && !session.saved
    {
      assert (polls + [last])[i] == polls[i];
      var _ := session.SaveIfChanged(polls[i]);
    }
    assert (polls + [last])[|polls|] == last;
    ok := session.SaveIfChanged(last);
    enc := session.enc;
    ok := ok && !editorFailed;
  }
}
