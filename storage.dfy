/**
 * The files the vault and the form read and write: one binary key file and JSON text
 * documents addressed by file name.
 */
module Storage {
  import opened Outcomes
  import opened Crypto

  /** One stored credential; at rest the password is a Fernet token, after listing it is plaintext. */
  datatype Record = Record(website: string, username: string, password: string)

  /**
   * What reading a JSON collection file yields: no such file, a file that does not parse,
   * or a parsed array of records. Other read errors are not modelled.
   */
  datatype Document = Missing | Corrupt | Ok(records: seq<Record>)

  const KEY_FILE := "encryption.key"
  const PASSWORDS_FILE := "passwords.json"

  /** The records a read-modify-write starts from: a missing file or one that is not valid JSON counts as empty. */
  function RecordsOrEmpty(d: Document): (rs: seq<Record>)
    ensures d.Ok? ==> rs == d.records
    ensures !d.Ok? ==> rs == []
  {
    if d.Ok? then d.records else []
  }

  class Disk {
    /** Contents of KEY_FILE, None when the file does not exist. */
    var keyFile: Option<Bytes>
    /** The JSON documents on disk, by file name; a name that is absent is a missing file. */
    var documents: map<string, Document>

    constructor (keyFile: Option<Bytes>, documents: map<string, Document>)
      ensures this.keyFile == keyFile && this.documents == documents
    {
      this.keyFile := keyFile;
      this.documents := documents;
    }

    /** Opening a JSON file for reading and parsing it. */
    function Read(name: string): (d: Document)
      reads this
      ensures name !in documents ==> d == Missing
      ensures d.Ok? || d == Corrupt ==> name in documents && documents[name] == d
    {
      if name in documents then documents[name] else Missing
    }

    /** Opening KEY_FILE for writing: the whole file is replaced. */
    method WriteKeyFile(data: Bytes)
      modifies this
      ensures keyFile == Some(data) && documents == old(documents)
    {
      keyFile := Some(data);
    }

    /** Opening a JSON file for writing and dumping a record array into it: the whole file is replaced. */
    method WriteDocument(name: string, records: seq<Record>)
      modifies this
      ensures documents == old(documents)[name := Ok(records)] && keyFile == old(keyFile)
      ensures Read(name) == Ok(records)
      ensures forall other :: other != name ==> Read(other) == old(Read(other))
    {
      documents := documents[name := Ok(records)];
    }
  }
}
