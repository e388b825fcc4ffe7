/** The values the assembly script handles: what os.walk yields, the parsed
    cloud-config document, the injection records and the metadata document. */
module Documents {

  /** One step of os.walk: a directory and the names of the files directly in
      it (the sub-directory names are not used by the script). */
  datatype WalkEntry = WalkEntry(dirpath: string, filenames: seq<string>)

  /** A value inside the cloud-config mapping.  Strings is a YAML list of
      strings; Opaque stands for any other YAML node, kept as-is. */
  datatype Value = Strings(items: seq<string>) | Opaque(repr: string)

  /** What yaml.load made of the rendered user-data template: nothing, a
      mapping, or some other document (a scalar, a list). */
  datatype CloudConfig = Null | Mapping(fields: map<string, Value>) | Other(repr: string)

  /** The cloud-config field that carries the administrator's public keys. */
  const AuthorizedKeysField: string := "ssh_authorized_keys"

  /** One planned file injection: where the file is read from, where the
      guest should put it, its content path in the metadata and its path in
      the image. */
  datatype Injection = Injection(local: string, remote: string, mdpath: string, isopath: string)

  /** One entry of the metadata document's files list. */
  datatype FileEntry = FileEntry(contentPath: string, path: string)

  /** A value of the metadata dictionary: a string, the public-key table,
      or the list of injected files. */
  datatype MetaValue = Str(s: string) | KeyTable(keys: map<string, string>) | Files(entries: seq<FileEntry>)

  /** The template context built in the constructor: the guest name, the
      UUID, the key list and the injection list. */
  datatype TemplateValues = TemplateValues(guestname: string, uuid: string, sshkeys: seq<string>, inject: seq<Injection>)

}
