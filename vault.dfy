/**
 * The credential vault (PasswordManagerCore): a master key derived from a password and a
 * salt kept in a key file, and a collection of records whose passwords are stored
 * encrypted under that key.
 */
module Vault {
  import opened Outcomes
  import opened Crypto
  import opened Storage

  /** The exceptions the vault raises, with the messages it raises them with. */
  datatype Error =
    | ValueError(message: string)
    | RuntimeError(message: string)
    | InvalidKey(message: string)
    /** Fernet's error for a token that does not decrypt under the key. */
    | InvalidToken

  const WEAK_PASSWORD := ValueError("Master password must be at least 12 characters")
  const NOT_INITIALIZED := RuntimeError("Encryption system not initialized")
  const WRONG_PASSWORD := InvalidKey("Invalid master password")
  const INVALID_ENTRY := ValueError("Invalid entry format")

  const MIN_MASTER_LENGTH: nat := 12

  const WEBSITE := "website"
  const USERNAME := "username"
  const PASSWORD := "password"

  /** The keys save_password_entry requires, in the order it checks them. */
  const ENTRY_KEYS := [WEBSITE, USERNAME, PASSWORD]

  /** The format check of save_password_entry: every required key is present; values are not looked at. */
  function HasEntryFields(entry: map<string, string>): (present: bool)
    ensures present <==> WEBSITE in entry && USERNAME in entry && PASSWORD in entry
  {
    assert ENTRY_KEYS[0] == WEBSITE && ENTRY_KEYS[1] == USERNAME && ENTRY_KEYS[2] == PASSWORD;
    forall i :: 0 <= i < |ENTRY_KEYS| ==> ENTRY_KEYS[i] in entry
  }

  /** The key file's layout: the salt, immediately followed by the encoded derived key. */
  function KeyFileBytes(salt: Bytes, key: Key): (data: Bytes)
    requires |salt| == SALT_LENGTH
    ensures |data| == SALT_LENGTH + |key|
    ensures data[..SALT_LENGTH] == salt && data[SALT_LENGTH..] == key
  {
    salt + key
  }

  /**
   * Reading the key file back: the first 16 bytes are the salt, the rest the stored key.
   * As with slicing, a file shorter than 16 bytes is all salt and leaves an empty stored key;
   * nothing checks the length.
   */
  function SplitKeyFile(data: Bytes): (parts: (Bytes, Bytes))
    ensures parts.0 + parts.1 == data
    ensures |parts.0| == if |data| < SALT_LENGTH then |data| else SALT_LENGTH
  {
    var cut := if |data| < SALT_LENGTH then |data| else SALT_LENGTH;
    (data[..cut], data[cut..])
  }

  /** Splitting a written key file gives back exactly the salt and key that were written. */
  lemma KeyFileRoundTrip(salt: Bytes, key: Key)
    requires |salt| == SALT_LENGTH
    ensures SplitKeyFile(KeyFileBytes(salt, key)) == (salt, key)
  {
  }

  /**
   * Decrypting every stored record in order: website and username are kept, the password
   * token is replaced by its plaintext, and one token that does not decrypt fails the lot.
   */
  function DecryptAll(decrypt: (Key, string) -> Option<string>, key: Key, stored: seq<Record>)
    : (r: Option<seq<Record>>)
    ensures r.None? <==> exists i :: 0 <= i < |stored| && decrypt(key, stored[i].password).None?
    ensures r.Some? ==> |r.value| == |stored|
    ensures r.Some? ==> forall i :: 0 <= i < |stored| ==>
              && r.value[i].website == stored[i].website
              && r.value[i].username == stored[i].username
              && decrypt(key, stored[i].password) == Some(r.value[i].password)
  {
    if stored == [] then Some([])
    else
      match decrypt(key, stored[0].password)
      case None => None
      case Some(plain) =>
        match DecryptAll(decrypt, key, stored[1..])
        case None => None
        case Some(rest) => Some([stored[0].(password := plain)] + rest)
  }

  /** The decryption of a stored collection is determined record by record. */
  lemma DecryptAllUnique(decrypt: (Key, string) -> Option<string>, key: Key, stored: seq<Record>, plain: seq<Record>)
    requires |plain| == |stored|
    requires forall i :: 0 <= i < |stored| ==>
               && plain[i].website == stored[i].website
               && plain[i].username == stored[i].username
               && decrypt(key, stored[i].password) == Some(plain[i].password)
    ensures DecryptAll(decrypt, key, stored) == Some(plain)
  {
    var r := DecryptAll(decrypt, key, stored);
    assert r.Some?;
    forall i | 0 <= i < |stored| ensures r.value[i] == plain[i] {
      assert Some(r.value[i].password) == Some(plain[i].password);
    }
    assert r.value == plain;
  }

  /**
   * Listing after appending one record: the old records decrypt as before and the new one
   * comes last, with its token decrypted; if either fails, the listing fails.
   */
  lemma {:induction false} DecryptAllAppend(decrypt: (Key, string) -> Option<string>, key: Key, stored: seq<Record>, extra: Record)
    ensures DecryptAll(decrypt, key, stored + [extra]) ==
              match (DecryptAll(decrypt, key, stored), decrypt(key, extra.password))
              case (Some(plain), Some(p)) => Some(plain + [extra.(password := p)])
              case _ => None
  {
    var all := stored + [extra];
    assert forall i :: 0 <= i < |stored| ==> all[i] == stored[i];
    match (DecryptAll(decrypt, key, stored), decrypt(key, extra.password))
    case (Some(plain), Some(p)) =>
      var expected := plain + [extra.(password := p)];
      DecryptAllUnique(decrypt, key, all, expected);
    case (None, _) =>
      var i :| 0 <= i < |stored| && decrypt(key, stored[i].password).None?;
      assert all[i] == stored[i];
    case (_, None) =>
      assert all[|stored|] == extra;
  }

  /**
   * What save-then-list shows: a record saved with a token Fernet made under the listing
   * key comes back last, with its plaintext password.
   */
  lemma SavedRecordListsAsPlaintext(c: Primitives, key: Key, stored: seq<Record>, website: string, username: string, password: string, nonce: Nonce)
    requires FernetRoundTrip(c)
    ensures DecryptAll(c.decrypt, key, stored + [Record(website, username, c.encrypt(key, password, nonce))]) ==
              match DecryptAll(c.decrypt, key, stored)
              case Some(plain) => Some(plain + [Record(website, username, password)])
              case None => None
  {
    DecryptAllAppend(c.decrypt, key, stored, Record(website, username, c.encrypt(key, password, nonce)));
  }

  class PasswordManagerCore {
    /** The Fernet key in use; None until initialisation or unlocking succeeds. */
    var cipher: Option<Key>
    var initialized: bool
    /** The cryptographic library. */
    const crypto: Primitives
    /** The working directory's files. */
    const disk: Disk

    ghost predicate Valid()
      reads this
    {
      initialized <==> cipher.Some?
    }

    constructor (crypto: Primitives, disk: Disk)
      ensures Valid()
      ensures cipher == None && !initialized
      ensures this.crypto == crypto && this.disk == disk
    {
      this.crypto := crypto;
      this.disk := disk;
      cipher := None;
      initialized := false;
    }

    /**
     * initialize_encryption: rejects a master password shorter than 12 characters, otherwise
     * derives the key from it and the fresh salt, overwrites the key file with salt and key,
     * and makes that key the session's.
     */
    method InitializeEncryption(masterPassword: string, salt: Bytes) returns (r: Outcome<Error>)
      requires Valid()
      requires |salt| == SALT_LENGTH
      modifies this, disk
      ensures Valid()
      ensures |masterPassword| < MIN_MASTER_LENGTH ==>
                && r == Fail(WEAK_PASSWORD)
                && cipher == old(cipher) && initialized == old(initialized)
                && unchanged(disk)
      ensures |masterPassword| >= MIN_MASTER_LENGTH ==>
                var key := crypto.derive(masterPassword, salt);
                && r == Pass
                && disk.keyFile == Some(KeyFileBytes(salt, key))
                && disk.documents == old(disk.documents)
                && cipher == Some(key) && initialized
    {
      if masterPassword == "" || |masterPassword| < MIN_MASTER_LENGTH {
        return Fail(WEAK_PASSWORD);
      }
      var key := crypto.derive(masterPassword, salt);
      disk.WriteKeyFile(salt + key);
      cipher := Some(key);
      initialized := true;
      r := Pass;
    }

    /**
     * load_encryption: reads the key file, re-derives the key from the password and the
     * stored salt, and accepts exactly when it equals the stored key; there is no length
     * check on this path. On failure the session is left as it was.
     */
    method LoadEncryption(masterPassword: string) returns (r: Outcome<Error>)
      requires Valid()
      modifies this
      ensures Valid()
      ensures disk.keyFile.None? ==> r == Fail(NOT_INITIALIZED) && unchanged(this)
      ensures disk.keyFile.Some? ==>
                var parts := SplitKeyFile(disk.keyFile.value);
                && (crypto.derive(masterPassword, parts.0) == parts.1 ==>
                      r == Pass && cipher == Some(parts.1) && initialized)
                && (crypto.derive(masterPassword, parts.0) != parts.1 ==>
                      r == Fail(WRONG_PASSWORD) && unchanged(this))
      ensures r == Pass <==>
                disk.keyFile.Some? &&
                crypto.derive(masterPassword, SplitKeyFile(disk.keyFile.value).0) == SplitKeyFile(disk.keyFile.value).1
    {
      if disk.keyFile.None? {
        return Fail(NOT_INITIALIZED);
      }
      var data := disk.keyFile.value;
      var parts := SplitKeyFile(data);
      var salt, storedKey := parts.0, parts.1;
      var derivedKey := crypto.derive(masterPassword, salt);
      if derivedKey != storedKey {
        return Fail(WRONG_PASSWORD);
      }
      cipher := Some(derivedKey);
      initialized := true;
      r := Pass;
    }

    /**
     * save_password_entry: needs an initialised session and an entry with the three keys;
     * reads the collection (a missing file or one that is not valid JSON counts as empty), appends one record
     * with website and username copied and the password encrypted, and rewrites the file.
     */
    method SavePasswordEntry(entry: map<string, string>, nonce: Nonce) returns (r: Outcome<Error>)
      requires Valid()
      modifies disk
      ensures !initialized ==> r == Fail(NOT_INITIALIZED) && unchanged(disk)
      ensures initialized && !HasEntryFields(entry) ==> r == Fail(INVALID_ENTRY) && unchanged(disk)
      ensures initialized && HasEntryFields(entry) ==>
                var saved := Record(entry[WEBSITE], entry[USERNAME], crypto.encrypt(cipher.value, entry[PASSWORD], nonce));
                && r == Pass
                && disk.keyFile == old(disk.keyFile)
                && disk.documents == old(disk.documents)[PASSWORDS_FILE := Ok(RecordsOrEmpty(old(disk.Read(PASSWORDS_FILE))) + [saved])]
    {
      if !initialized {
        return Fail(NOT_INITIALIZED);
      }
      if !HasEntryFields(entry) {
        return Fail(INVALID_ENTRY);
      }
      var encryptedPassword := crypto.encrypt(cipher.value, entry[PASSWORD], nonce);
      var data := RecordsOrEmpty(disk.Read(PASSWORDS_FILE));
      data := data + [Record(entry[WEBSITE], entry[USERNAME], encryptedPassword)];
      disk.WriteDocument(PASSWORDS_FILE, data);
      r := Pass;
    }

    /** What load_passwords returns in the current state. */
    function Listing(): (r: Result<seq<Record>, Error>)
      reads this, disk
      requires Valid()
      ensures r.Failure? ==> r.error == NOT_INITIALIZED || r.error == InvalidToken
      ensures r.Failure? <==>
                || !initialized
                || (disk.Read(PASSWORDS_FILE).Ok? &&
                    exists i :: 0 <= i < |disk.Read(PASSWORDS_FILE).records| &&
                                crypto.decrypt(cipher.value, disk.Read(PASSWORDS_FILE).records[i].password).None?)
      ensures r.Success? ==> |r.value| == |RecordsOrEmpty(disk.Read(PASSWORDS_FILE))|
    {
      if !initialized then Failure(NOT_INITIALIZED)
      else match disk.Read(PASSWORDS_FILE)
        case Ok(stored) =>
          (match DecryptAll(crypto.decrypt, cipher.value, stored)
           case Some(plain) => Success(plain)
           case None => Failure(InvalidToken))
        case _ => Success([])
    }

    /**
     * load_passwords: needs an initialised session; a missing collection or one that is not valid JSON lists
     * as empty; otherwise every record is decrypted in place, in stored order, and the first
     * token that does not decrypt aborts the call.
     */
    method LoadPasswords() returns (r: Result<seq<Record>, Error>)
      requires Valid()
      ensures r == Listing()
      ensures !initialized ==> r == Failure(NOT_INITIALIZED)
      ensures initialized && !disk.Read(PASSWORDS_FILE).Ok? ==> r == Success([])
      ensures initialized && disk.Read(PASSWORDS_FILE).Ok? ==>
                var stored := disk.Read(PASSWORDS_FILE).records;
                && (r.Failure? <==> exists i :: 0 <= i < |stored| && crypto.decrypt(cipher.value, stored[i].password).None?)
                && (r.Failure? ==> r.error == InvalidToken)
                && (r.Success? ==> |r.value| == |stored|)
                && (r.Success? ==> forall i :: 0 <= i < |stored| ==>
                      && r.value[i].website == stored[i].website
                      && r.value[i].username == stored[i].username
                      && crypto.decrypt(cipher.value, stored[i].password) == Some(r.value[i].password))
    {
      if !initialized {
        return Failure(NOT_INITIALIZED);
      }
      var doc := disk.Read(PASSWORDS_FILE);
      if !doc.Ok? {
        return Success([]);
      }
      var stored := doc.records;
      var key := cipher.value;
      var data := stored;
      var i := 0;
      while i < |data|
        invariant 0 <= i <= |data| == |stored|
        invariant data[i..] == stored[i..]
        invariant forall j :: 0 <= j < i ==>
                    && data[j].website == stored[j].website
                    && data[j].username == stored[j].username
                    && crypto.decrypt(key, stored[j].password) == Some(data[j].password)
      {
        assert data[i] == stored[i] by { assert data[i..][0] == stored[i..][0]; }
        var plain := crypto.decrypt(key, data[i].password);
        if plain.None? {
          return Failure(InvalidToken);
        }
        data := data[i := data[i].(password := plain.value)];
        i := i + 1;
      }
      DecryptAllUnique(crypto.decrypt, key, stored, data);
      r := Success(data);
    }
  }

  /**
   * Initialising and then unlocking with the same password always succeeds, because the
   * derivation is deterministic and the key file splits back into what was written.
   */
  method InitializeThenUnlock(core: PasswordManagerCore, masterPassword: string, salt: Bytes)
    returns (initialized: Outcome<Error>, unlocked: Outcome<Error>)
    requires core.Valid()
    requires |salt| == SALT_LENGTH && |masterPassword| >= MIN_MASTER_LENGTH
    modifies core, core.disk
    ensures initialized == Pass && unlocked == Pass
    ensures core.initialized && core.cipher == Some(core.crypto.derive(masterPassword, salt))
  {
    initialized := core.InitializeEncryption(masterPassword, salt);
    KeyFileRoundTrip(salt, core.crypto.derive(masterPassword, salt));
    unlocked := core.LoadEncryption(masterPassword);
  }

  /**
   * Saving a record and then listing: the listing is what it was before with the saved record,
   * password in plaintext, at the end (given Fernet's round trip).
   */
  method SaveThenList(core: PasswordManagerCore, website: string, username: string, password: string, nonce: Nonce)
    returns (saved: Outcome<Error>, listed: Result<seq<Record>, Error>)
    requires core.Valid() && core.initialized
    requires FernetRoundTrip(core.crypto)
    modifies core.disk
    ensures saved == Pass
    ensures old(core.Listing()).Success? ==> listed == Success(old(core.Listing()).value + [Record(website, username, password)])
    ensures old(core.Listing()).Failure? ==> listed == Failure(InvalidToken)
  {
    ghost var before := core.disk.Read(PASSWORDS_FILE);
    saved := core.SavePasswordEntry(map[WEBSITE := website, USERNAME := username, PASSWORD := password], nonce);
    SavedRecordListsAsPlaintext(core.crypto, core.cipher.value, RecordsOrEmpty(before), website, username, password, nonce);
    listed := core.LoadPasswords();
  }
}
