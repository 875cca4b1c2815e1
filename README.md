# Password vault core, modelled in Dafny

This project models the credential vault of a small desktop password manager:
`PasswordManagerCore` (main.py) and the record logic its Tk form runs inline
(gui.py).

The vault has two pieces of state: `cipher`, the Fernet key in use, and
`initialized`. It has four operations:

- `initialize_encryption` checks that the master password has at least 12
  characters. It then derives a key from the password and a fresh 16-byte salt,
  writes `salt ++ key` to `encryption.key` and opens the session.
- `load_encryption` splits the key file at byte 16 and re-derives the key. It
  opens the session exactly when the derived key equals the stored bytes.
- `save_password_entry` appends one record to `passwords.json`, with the password
  encrypted. A missing file, or one that is not valid JSON, counts as empty.
- `load_passwords` decrypts every stored record, in order. One bad token aborts
  the whole call.

The form adds these pieces:

- the first-run password guard;
- the "all fields filled" check;
- a 24-character password generator;
- the lookup of a selected website;
- a delete that filters the listing by website.

The modules follow the program:

- `Crypto` is the library boundary.
- `Storage` holds the files.
- `Vault` is main.py.
- `Gui` is the record logic of gui.py.
- `Outcomes` holds the result types.

The vault is a class whose methods change its fields and the `Disk` object. Each
method states its whole new state. The pure parts are functions with lemmas.

Cryptography is abstract. `Primitives` holds three function values: derive (PBKDF2
as in section 5.2 of RFC 8018, base64url as in section 5 of RFC 4648), Fernet
encrypt and Fernet decrypt. Because they are functions, derivation is
deterministic. Fernet's round trip is the predicate `FernetRoundTrip`, and only
the lemmas that need it require it. Nothing assumes that different passwords
give different keys.

Behaviour of the code that the model makes visible:

- The delete writes the filtered list to `cnffjbeqf.wfqv`, not to
  `passwords.json`, so a later listing is unchanged (`Gui.DeleteThenList`). Under
  ROT13 that name decodes to `passwords.jsdi`, not to `passwords.json`.
- What the delete writes is the output of `load_passwords`, so the passwords in
  that file are plaintext.
- `save_password_entry` checks only that the three keys are present
  (main.py:66), so empty values pass. Only the form rejects empty values
  (gui.py:396).
- The key comparison is a plain `!=` (main.py:53), not a constant-time one.

## Model

| member | source | states |
|---|---|---|
| `Vault.PasswordManagerCore.constructor` | main.py:11-13 | a new core has no cipher and is not initialised |
| `Vault.PasswordManagerCore.InitializeEncryption` | main.py:15-34 | a password shorter than 12 characters raises the ValueError and leaves cipher, initialized and every file as they were; otherwise the key file becomes exactly salt ++ Derive(pw, salt), the collection files are untouched, and the session holds that key |
| `Vault.KeyFileBytes` | main.py:28-31 | the key file is 16 + \|key\| bytes: the salt first, then the key |
| `Vault.SplitKeyFile` | main.py:39-42 | the two slices put back together give the file; the salt part is 16 bytes, or the whole file when the file is shorter, with no length check |
| `Vault.KeyFileRoundTrip` | main.py:28-42 | splitting a written key file at byte 16 gives back exactly the salt and key that were written |
| `Vault.PasswordManagerCore.LoadEncryption` | main.py:36-59 | a missing key file raises "Encryption system not initialized"; a mismatch raises InvalidKey; either failure leaves the session unchanged; it succeeds iff Derive(pw, stored salt) equals the stored key, with no length check, and then the session holds that key |
| `Vault.InitializeThenUnlock` | main.py:15-57 | initialising and then unlocking with the same password both succeed, and the session holds Derive(pw, salt) |
| `Vault.PasswordManagerCore.SavePasswordEntry` | main.py:61-84 | not initialised: raises and no file changes; a missing website/username/password key: raises ValueError and no file changes (empty values are accepted); otherwise passwords.json becomes the old records ([] if missing or corrupt) with exactly one record appended at the end: website and username copied, password replaced by Encrypt(key, password) |
| `Storage.Disk.Read` | main.py:72-75 | a file name that is not on disk reads as Missing (FileNotFoundError); otherwise the document stored under that name, Corrupt standing for a JSONDecodeError (the same read is at main.py:92-95) |
| `Vault.HasEntryFields` | main.py:66 | true iff the entry has all three keys website, username and password; the values, empty or not, are not looked at |
| `Storage.Disk.WriteKeyFile` | main.py:30-31 | the key file is replaced wholesale; the JSON files are untouched |
| `Storage.Disk.WriteDocument` | main.py:83-84 | the named JSON file is replaced wholesale; every other file reads as before |
| `Vault.DecryptAll` | main.py:97-100 | fails iff some stored token does not decrypt; otherwise returns the same number of records in the same order, with website and username unchanged and each password the decryption of its token |
| `Vault.PasswordManagerCore.Listing` | main.py:86-100 | what load_passwords returns: the only errors are "not initialized" and InvalidToken; it fails iff the session is not initialised or a parsed collection holds a token that does not decrypt; on success it has one record per stored record ([] for a missing or corrupt file) |
| `Vault.PasswordManagerCore.LoadPasswords` | main.py:86-100 | not initialised: raises; a missing or corrupt file gives []; otherwise InvalidToken iff some token does not decrypt, else the records in stored order with the passwords decrypted; the loop overwrites each password in place |
| `Vault.DecryptAllAppend` | main.py:77-98 | decrypting after one append gives the earlier result plus the appended record decrypted, last; it fails if either part fails |
| `Vault.SavedRecordListsAsPlaintext` | main.py:69-98 | given Fernet's round trip, a record saved with a token made under the listing key decrypts to its plaintext, at the end |
| `Vault.SaveThenList` | main.py:61-100 | in an initialised session, save followed by list gives the earlier listing with the saved record, in plaintext, at the end; it gives InvalidToken if the earlier listing did |
| `Gui.Rot13Filename` | gui.py:163-165 | the delete's file name is a constant that differs from passwords.json, the file the vault reads |
| `Gui.Rot13FilenameIsNotPasswordsFile` | gui.py:163-165 | the delete's file name is not passwords.json; it is the ROT13 of passwords.jsdi and is not the ROT13 of passwords.json |
| `Gui.WithoutWebsite` | gui.py:484 | the kept entries are exactly those of the input whose website differs from the selected one, so every match is removed, not just the first |
| `Gui.WithoutWebsiteAppend` | gui.py:484 | filtering a concatenation is concatenating the filtered parts, so the original order is kept |
| `Gui.WithoutAbsentWebsite` | gui.py:484 | filtering with a website that no entry has returns the list unchanged |
| `Gui.WithoutWebsiteIdempotent` | gui.py:484 | filtering twice with the same website equals filtering once |
| `Gui.FirstWithWebsite` | gui.py:429 | None (StopIteration) iff no entry has the website; otherwise the entry at the first index whose website matches |
| `Gui.EncryptionGui.RevealSelected` | gui.py:418-429 | no selection: nothing happens; a listing error is reported; otherwise the first listed entry for the selected website, or not found iff none has it (the same lookup runs in copy_selected_password, gui.py:465-472) |
| `Gui.AllFilled` | gui.py:396 | all(entry.values()) holds iff no value of the entry is the empty string; when it fails, some key maps to "" |
| `Gui.FormEntry` | gui.py:390-396 | the form's entry always has the three keys the vault checks, with the field values; it passes all(entry.values()) iff no field is empty |
| `Gui.EncryptionGui.SaveEntry` | gui.py:388-408 | with any field empty the vault is not called and no file changes; otherwise the vault's save runs: a not-initialised error is reported, or exactly one encrypted record is appended to passwords.json |
| `Gui.EncryptionGui.ShowFirstRunWizard` | gui.py:246-260 | initialize_encryption is called iff the answer is present and has at least 12 characters; then it always succeeds; a rejected answer changes nothing |
| `Gui.Join` | gui.py:413 | the joined string has one character per choice: the alphabet character at the chosen position |
| `Gui.GeneratePassword` | gui.py:410-413 | exactly 24 characters, each an ASCII letter, a digit or one of !@#$%^&*_+=~ |
| `Gui.EncryptionGui.DeleteSelectedEntry` | gui.py:477-492 | cancelled or unselected: no file changes; a listing error is reported and no file changes; otherwise the filtered plaintext listing is written to cnffjbeqf.wfqv. In every case the key file, passwords.json and the vault's listing are unchanged |
| `Gui.DeleteThenList` | gui.py:483-487 | listing, deleting and listing again gives the same result twice, so the deleted website's entries are still listed |

## Left out

- Tk presentation has no record logic and is not modelled: the splash screen,
  progress bar, smoke and colour animation, quotes, styles, layout, treeview
  refresh, clipboard and context menu.
- PBKDF2, SHA-256, base64url and Fernet internals are foreign library code. They
  are the three function values of `Crypto.Primitives`. The key length (44 bytes
  of base64url text) and the KDF parameters (SHA-256, 100000 iterations, 32
  bytes) are documented but not used by any proof.
- JSON parsing and pretty-printing are library code. A collection file is
  Missing, Corrupt (not valid JSON) or a parsed list of records. A file that
  parses to something other than a list of such records is not modelled.
- `Storage.Disk.Read`: only a missing file and a file that is not valid JSON are
  modelled. The code does not catch other I/O errors, and the model has no path
  for them: a permission or is-a-directory error from any `open` (main.py:30, 39,
  72, 83, 92), or a `passwords.json` whose bytes do not decode in the locale's
  encoding. These propagate to the caller in the code.
- Randomness is taken as parameters: the `os.urandom(16)` salt, Fernet's IV and
  timestamp, and the positions `random.choice` picks in `generate_password`.
- The key comparison is a plain equality. Its timing is not expressible in the
  model.
- `check_initialization` and `authenticate_user` (gui.py:239-275) are dialog
  plumbing and are not modelled. `check_initialization` tests for
  `chaos_cipher.key`, while the vault writes `encryption.key`.
- `Gui.EncryptionGui.RevealSelected`: the details window and the clipboard copy
  that use the entry are not modelled.
- `Gui.EncryptionGui.RevealSelected`: the treeview returns the selected website
  as a value that Tk may convert. An all-digit website becomes an integer, so the
  code's comparison (gui.py:429, gui.py:472) never matches and it reports
  StopIteration. The model compares the stored string and reveals the entry.
- `Gui.EncryptionGui.DeleteSelectedEntry`: the treeview returns the selected
  website as a value that Tk may convert (for example a numeric website becomes
  a number). The model treats it as the stored string.
- A master password of `None` is not a case of `initialize_encryption` or
  `load_encryption`; their parameters are strings. The wizard models the
  cancelled dialog as `None`.
- UTF-8 encoding of passwords and decoding of plaintexts is folded into the
  crypto functions.
- Atomicity of file rewrites under crashes or concurrent writers is out of scope.
  The code is single-process and sequential.
