/**
 * The record logic of the desktop form that drives the vault: the first-run password
 * guard, the filled-in check before saving, the password generator, the lookup of a
 * selected website and the delete that filters the listing and writes it back out.
 */
module Gui {
  import opened Outcomes
  import opened Crypto
  import opened Storage
  import opened Vault

  // ---------------------------------------------------------------- file name

  /** The file the delete writes to, described in the code as a ROT13-encrypted name. */
  function Rot13Filename(): (name: string)
    ensures name != PASSWORDS_FILE
  {
    "cnffjbeqf.wfqv"
  }

  /** ROT13 of one character: letters rotate by 13 within their case, others are kept. */
  function Rot13Char(c: char): (d: char)
  {
    if 'a' <= c <= 'z' then ((c as int - 'a' as int + 13) % 26 + 'a' as int) as char
    else if 'A' <= c <= 'Z' then ((c as int - 'A' as int + 13) % 26 + 'A' as int) as char
    else c
  }

  function Rot13(s: string): (t: string)
    ensures |t| == |s|
    ensures forall i :: 0 <= i < |s| ==> t[i] == Rot13Char(s[i])
  {
    seq(|s|, i requires 0 <= i < |s| => Rot13Char(s[i]))
  }

  /** ROT13 undoes itself. */
  lemma Rot13Involutive(s: string)
    ensures Rot13(Rot13(s)) == s
  {
  }

  /**
   * The delete's file is not the collection file, and it is not even the ROT13 of the
   * collection file's name: it is the ROT13 of "passwords.jsdi".
   */
  lemma Rot13FilenameIsNotPasswordsFile()
    ensures Rot13Filename() != PASSWORDS_FILE
    ensures Rot13(Rot13Filename()) == "passwords.jsdi"
    ensures Rot13Filename() == Rot13("passwords.jsdi")
    ensures Rot13(PASSWORDS_FILE) != Rot13Filename()
  {
    var decoded := Rot13(Rot13Filename());
    assert decoded == "passwords.jsdi";
    Rot13Involutive(Rot13Filename());
    assert Rot13(PASSWORDS_FILE)[12] == 'b';
  }

  // ---------------------------------------------------------------- delete filter

  /** The delete's comprehension: the entries whose website differs from the selected one, in order. */
  function WithoutWebsite(entries: seq<Record>, website: string): (kept: seq<Record>)
    ensures |kept| <= |entries|
    ensures forall e :: e in kept <==> e in entries && e.website != website
  {
    if entries == [] then []
    else (if entries[0].website != website then [entries[0]] else []) + WithoutWebsite(entries[1..], website)
  }

  /** The filter works entry by entry, so it keeps the original order. */
  lemma {:induction false} WithoutWebsiteAppend(xs: seq<Record>, ys: seq<Record>, website: string)
    ensures WithoutWebsite(xs + ys, website) == WithoutWebsite(xs, website) + WithoutWebsite(ys, website)
  {
    if xs != [] {
      assert (xs + ys)[1..] == xs[1..] + ys;
      WithoutWebsiteAppend(xs[1..], ys, website);
    } else {
      assert xs + ys == ys;
    }
  }

  /** Filtering with a website no entry has leaves the list as it is. */
  lemma {:induction false} WithoutAbsentWebsite(entries: seq<Record>, website: string)
    requires forall i :: 0 <= i < |entries| ==> entries[i].website != website
    ensures WithoutWebsite(entries, website) == entries
  {
    if entries != [] {
      WithoutAbsentWebsite(entries[1..], website);
      assert [entries[0]] + entries[1..] == entries;
    }
  }

  /** Filtering twice with the same website is filtering once. */
  lemma WithoutWebsiteIdempotent(entries: seq<Record>, website: string)
    ensures WithoutWebsite(WithoutWebsite(entries, website), website) == WithoutWebsite(entries, website)
  {
    var kept := WithoutWebsite(entries, website);
    forall i | 0 <= i < |kept| ensures kept[i].website != website {
      assert kept[i] in kept;
    }
    WithoutAbsentWebsite(kept, website);
  }

  // ---------------------------------------------------------------- lookup

  /** The lookup next(e for e in entries if e["website"] == website): the first match, None for StopIteration. */
  function FirstWithWebsite(entries: seq<Record>, website: string): (found: Option<Record>)
    ensures found.None? <==> forall i :: 0 <= i < |entries| ==> entries[i].website != website
    ensures found.Some? ==>
              exists i :: 0 <= i < |entries| && entries[i] == found.value && found.value.website == website &&
                          forall j :: 0 <= j < i ==> entries[j].website != website
  {
    if entries == [] then None
    else if entries[0].website == website then Some(entries[0])
    else
      FirstWithWebsite(entries[1..], website)
  }

  // ---------------------------------------------------------------- save form

  /** all(entry.values()): no value of the form's entry is the empty (falsy) string. */
  function AllFilled(entry: map<string, string>): (filled: bool)
    ensures filled ==> forall k :: k in entry ==> entry[k] != ""
    ensures !filled ==> exists k :: k in entry && entry[k] == ""
  {
    assert forall k :: k in entry ==> entry[k] in entry.Values;
    forall v :: v in entry.Values ==> v != ""
  }

  /** The entry the form builds from its three fields. */
  function FormEntry(website: string, username: string, password: string): (entry: map<string, string>)
    ensures HasEntryFields(entry)
    ensures entry[WEBSITE] == website && entry[USERNAME] == username && entry[PASSWORD] == password
    ensures AllFilled(entry) <==> website != "" && username != "" && password != ""
  {
    map[WEBSITE := website, USERNAME := username, PASSWORD := password]
  }

  // ---------------------------------------------------------------- generator

  const ASCII_LETTERS := "abcdefghijklmnopqrstuvwxyzABCDEFGHIJKLMNOPQRSTUVWXYZ"
  const DIGITS := "0123456789"
  const SYMBOLS := "!@#$%^&*_+=~"
  /** The generator's alphabet: letters, then digits, then the twelve symbols. */
  const ALPHABET := ASCII_LETTERS + DIGITS + SYMBOLS
  const GENERATED_LENGTH: nat := 24

  /** The characters at the given alphabet positions, joined in order. */
  function Join(picks: seq<nat>): (s: string)
    requires forall i :: 0 <= i < |picks| ==> picks[i] < |ALPHABET|
    ensures |s| == |picks|
    ensures forall i :: 0 <= i < |s| ==> s[i] == ALPHABET[picks[i]]
  {
    if picks == [] then "" else [ALPHABET[picks[0]]] + Join(picks[1..])
  }

  /**
   * generate_password: 24 characters, each chosen from the alphabet; the random choices
   * are given as alphabet positions.
   */
  function GeneratePassword(picks: seq<nat>): (password: string)
    requires |picks| == GENERATED_LENGTH
    requires forall i :: 0 <= i < |picks| ==> picks[i] < |ALPHABET|
    ensures |password| == GENERATED_LENGTH
    ensures forall i :: 0 <= i < |password| ==>
              password[i] in ASCII_LETTERS || password[i] in DIGITS || password[i] in SYMBOLS
  {
    var password := Join(picks);
    assert forall k :: 0 <= k < |ALPHABET| ==>
             ALPHABET[k] in ASCII_LETTERS || ALPHABET[k] in DIGITS || ALPHABET[k] in SYMBOLS by {
      forall k | 0 <= k < |ALPHABET|
        ensures ALPHABET[k] in ASCII_LETTERS || ALPHABET[k] in DIGITS || ALPHABET[k] in SYMBOLS
      {
        if k < |ASCII_LETTERS| {
          assert ALPHABET[k] == ASCII_LETTERS[k];
        } else if k < |ASCII_LETTERS| + |DIGITS| {
          assert ALPHABET[k] == DIGITS[k - |ASCII_LETTERS|];
        } else {
          assert ALPHABET[k] == SYMBOLS[k - |ASCII_LETTERS| - |DIGITS|];
        }
      }
    }
    password
  }

  // ---------------------------------------------------------------- the form

  datatype WizardOutcome = Rejected | Initialized | InitFailed(error: Error)
  datatype SaveOutcome = FieldsMissing | Saved | SaveFailed(error: Error)
  datatype RevealOutcome = NoSelection | Revealed(entry: Record) | NotFound | RevealFailed(error: Error)
  datatype DeleteOutcome = Cancelled | Deleted | DeleteFailed(error: Error)

  /** The desktop form, reduced to the calls it makes into the vault and the files it writes. */
  class EncryptionGui {
    const core: PasswordManagerCore

    constructor (core: PasswordManagerCore)
      ensures this.core == core
    {
      this.core := core;
    }

    /**
     * show_first_run_wizard: the answer to the dialog (None when it is cancelled) reaches
     * initialize_encryption only when it has at least 12 characters, so that call never
     * raises here.
     */
    method ShowFirstRunWizard(answer: Option<string>, salt: Bytes) returns (r: WizardOutcome)
      requires core.Valid()
      requires |salt| == SALT_LENGTH
      modifies core, core.disk
      ensures core.Valid()
      ensures r == Rejected <==> !(answer.Some? && |answer.value| >= MIN_MASTER_LENGTH)
      ensures r == Rejected ==> unchanged(core) && unchanged(core.disk)
      ensures r != Rejected ==>
                var key := core.crypto.derive(answer.value, salt);
                && r == Initialized
                && core.initialized && core.cipher == Some(key)
                && core.disk.keyFile == Some(KeyFileBytes(salt, key))
                && core.disk.documents == old(core.disk.documents)
    {
      if answer.None? || answer.value == "" || |answer.value| < MIN_MASTER_LENGTH {
        return Rejected;
      }
      var outcome := core.InitializeEncryption(answer.value, salt);
      match outcome
      case Pass => r := Initialized;
      case Fail(e) => r := InitFailed(e);
    }

    /**
     * save_entry: warns and stores nothing when a field is empty; otherwise hands the
     * three fields to save_password_entry, whose errors it reports.
     */
    method SaveEntry(website: string, username: string, password: string, nonce: Nonce) returns (r: SaveOutcome)
      requires core.Valid()
      modifies core.disk
      ensures website == "" || username == "" || password == "" ==> r == FieldsMissing && unchanged(core.disk)
      ensures website != "" && username != "" && password != "" && !core.initialized ==>
                r == SaveFailed(NOT_INITIALIZED) && unchanged(core.disk)
      ensures website != "" && username != "" && password != "" && core.initialized ==>
                var saved := Record(website, username, core.crypto.encrypt(core.cipher.value, password, nonce));
                && r == Saved
                && core.disk.keyFile == old(core.disk.keyFile)
                && core.disk.documents == old(core.disk.documents)[PASSWORDS_FILE := Ok(RecordsOrEmpty(old(core.disk.Read(PASSWORDS_FILE))) + [saved])]
    {
      var entry := FormEntry(website, username, password);
      if !AllFilled(entry) {
        return FieldsMissing;
      }
      var outcome := core.SavePasswordEntry(entry, nonce);
      match outcome
      case Pass => r := Saved;
      case Fail(e) => r := SaveFailed(e);
    }

    /**
     * The lookup behind show_password_details and copy_selected_password: list the
     * vault and take the first entry for the selected website.
     */
    method RevealSelected(selection: Option<string>) returns (r: RevealOutcome)
      requires core.Valid()
      ensures selection.None? ==> r == NoSelection
      ensures selection.Some? && core.Listing().Failure? ==> r == RevealFailed(core.Listing().error)
      ensures selection.Some? && core.Listing().Success? ==>
                var entries := core.Listing().value;
                && (r == NotFound <==> forall i :: 0 <= i < |entries| ==> entries[i].website != selection.value)
                && (r.Revealed? ==> exists i :: 0 <= i < |entries| && entries[i] == r.entry &&
                                      r.entry.website == selection.value &&
                                      forall j :: 0 <= j < i ==> entries[j].website != selection.value)
                && (r.Revealed? || r == NotFound)
    {
      if selection.None? {
        return NoSelection;
      }
      var listed := core.LoadPasswords();
      match listed
      case Failure(e) => r := RevealFailed(e);
      case Success(entries) =>
        match FirstWithWebsite(entries, selection.value)
        case None => r := NotFound;
        case Some(entry) => r := Revealed(entry);
    }

    /**
     * delete_selected_entry: after confirmation, lists the vault, drops every entry of the
     * selected website and writes the rest, with plaintext passwords, to Rot13Filename().
     * The collection file is not touched, so a later listing is the same as before.
     */
    method DeleteSelectedEntry(selection: Option<string>, confirmed: bool) returns (r: DeleteOutcome)
      requires core.Valid()
      modifies core.disk
      ensures core.disk.keyFile == old(core.disk.keyFile)
      ensures core.disk.Read(PASSWORDS_FILE) == old(core.disk.Read(PASSWORDS_FILE))
      ensures core.Listing() == old(core.Listing())
      ensures selection.None? || !confirmed ==> r == Cancelled && unchanged(core.disk)
      ensures selection.Some? && confirmed && core.Listing().Failure? ==>
                r == DeleteFailed(core.Listing().error) && unchanged(core.disk)
      ensures selection.Some? && confirmed && core.Listing().Success? ==>
                && r == Deleted
                && core.disk.documents ==
                     old(core.disk.documents)[Rot13Filename() := Ok(WithoutWebsite(core.Listing().value, selection.value))]
    {
      if selection.None? || !confirmed {
        return Cancelled;
      }
      var listed := core.LoadPasswords();
      match listed
      case Failure(e) => r := DeleteFailed(e);
      case Success(entries) =>
        var kept := WithoutWebsite(entries, selection.value);
        Rot13FilenameIsNotPasswordsFile();
        core.disk.WriteDocument(Rot13Filename(), kept);
        r := Deleted;
    }
  }

  /** Deleting from the form and listing again shows the same records as before the delete. */
  method DeleteThenList(gui: EncryptionGui, selection: Option<string>, confirmed: bool)
    returns (before: Result<seq<Record>, Error>, after: Result<seq<Record>, Error>)
    requires gui.core.Valid()
    modifies gui.core.disk
    // In particular every entry of the selected website is still listed.
    ensures after == before
  {
    before := gui.core.LoadPasswords();
    var _ := gui.DeleteSelectedEntry(selection, confirmed);
    after := gui.core.LoadPasswords();
  }
}
