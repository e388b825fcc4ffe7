# Ampuole config-drive assembly in Dafny

Ampuole builds an OpenStack config drive, an ISO image that a guest reads at
first boot. One `Ampuole` object does the work in a fixed order:

1. it parses the user-data template;
2. it collects SSH public keys from a directory of key files and from the
   cloud-config's `ssh_authorized_keys` field;
3. it plans one injection record per file of an inject directory;
4. it overwrites `ssh_authorized_keys` in the cloud-config with the full key
   list;
5. it builds the `meta_data.json` dictionary;
6. it builds the `mkisofs` command line with one graft point per file.

This project models that object. It also proves the promises the tool makes:
- indices are contiguous and distinct;
- the path shapes are fixed;
- optional metadata fields are present exactly when their source is not empty;
- planning order is kept from the records to the metadata and to the image.

Modules:

- `Seqs` (`seqs.dfy`): a few concatenation and slicing facts the proofs call on.
- `Options` (`options.dfy`): the `Option` type.
- `PyStr` (`pystr.dfy`): the Python 2 string operations the script relies on:
  - `str.strip()`;
  - `file.readlines()`;
  - `str(n)`;
  - the `'{:04d}'` format.
- `PosixPath` (`posixpath.dfy`):
  - `os.path.join` with its absolute-component rule;
  - `str.split('/')`.
- `Documents` (`documents.dfy`): the values that flow through the run:
  - an `os.walk` step;
  - the parsed cloud-config;
  - an injection record;
  - a metadata value.
- `Assembly` (`assembly.dfy`): what each step computes, as functions of its
  inputs, and the lemmas about them.
- `ConfigDrive` (`ampuole.dfy`): class `Ampuole`. It has the object's fields,
  and one method per step with the loops of the Python script. Each method is
  proved to leave the state that the matching `Assembly` function describes.

The environment becomes inputs:
- an `os.walk` traversal is a sequence of `(dirpath, filenames)` entries;
- opening and reading a file is a function from a path to `Option<text>`,
  where `None` means `IOError`;
- what `yaml.load` returned is a `CloudConfig` value: `Null`, a `Mapping`, or
  `Other`;
- the UUID is its string form;
- the temporary file names and the exit status of `mkisofs` are parameters.

Where the code and its description disagree, the model follows the code:

- **Guest path.** `remote` drops only the *first* segment of the local path
  (`ampuole.py:94`). It does not drop the whole inject directory. With an
  inject directory of one segment the two agree (`Assembly.RemoteUnderRoot`).
  With a deeper one, the deeper segments stay in the guest path.
- **Blank lines.** Blank lines of a key file become empty keys. Nothing
  filters them (`ampuole.py:68-70`).
- **Graft syntax.** `ampuole.py:168` has a stray `)` and does not parse as
  written. The model uses the evident graft string `isopath=local`.
- **UUID key.** The metadata key for the UUID is `uuid` (`ampuole.py:142`).
- **Temporary file fields.** `__init__` sets `_udfile` and `_mdfile` (`ampuole.py:37-38`), which nothing reads again. The steps set `udfile` and `mdfile` instead (`ampuole.py:117` and `ampuole.py:143`). The model has one field for each pair: `udfile` and `mdfile`, which the constructor sets to `None`.

## Model

| member | source | states |
|---|---|---|
| PyStr.Strip | ampuole.py:69 | the result is a slice of the line with only whitespace cut off both ends, and it neither starts nor ends with whitespace |
| PyStr.ReadLines | ampuole.py:68 | the lines concatenate back to the text; no line is empty; there is no newline before a line's end; every line but the last ends in a newline |
| PyStr.LineCount | ampuole.py:68-70 | there is one line per newline, plus one for an unterminated tail, so blank lines count as lines |
| PyStr.NatToString | ampuole.py:131 | str(i) is all digits, has no leading zero and reads back as i |
| PyStr.FourDigit | ampuole.py:92 | '{:04d}'.format(j) is at least four digits, reads back as j, is exactly four below 10000 and never padded beyond four |
| PyStr.FourDigitZero | ampuole.py:89-92 | the first index is "0000" |
| PosixPath.Split | ampuole.py:94 | split('/') gives '/'-free pieces, one more than the separators, that join back to the path |
| PosixPath.JoinAllIsIntercalate | ampuole.py:95 | os.path.join of clean segments puts one '/' between them |
| Assembly.Paths | ampuole.py:63-66 | one joined path per listed file name, in walk order |
| Assembly.StripAll | ampuole.py:68-70 | one key per line, the i-th being line i stripped |
| Assembly.ConfigKeys | ampuole.py:74-80 | the field's list when the document is a mapping that holds a list of strings there; no keys in every other case (no mapping, no field, some other value), and no error |
| Assembly.PathKeysAppend | ampuole.py:63-71 | key files contribute in the order they are visited |
| Assembly.UnreadableFileSkipped | ampuole.py:65-73 | a file whose open raises IOError contributes nothing and does not stop the walk |
| Assembly.OneKeyPerOneLineFile | ampuole.py:63-71 | N readable one-line files give exactly N keys, the i-th from the i-th file |
| Assembly.Remote | ampuole.py:94-100 | the guest path exists exactly when the local path has a '/' |
| Assembly.MakeInjection | ampuole.py:92-103 | record j keeps its local path, and its content and image paths are /content/ and openstack/content/ followed by the four-digit j |
| Assembly.RecordAt | ampuole.py:89-104 | record j is built from the j-th file and numbered j |
| Assembly.PlanInjections | ampuole.py:89-104 | there is a plan exactly when every local path has a '/'; then there is one record per file, in walk order, with the path shapes above |
| Assembly.PlanIndexReadsBack | ampuole.py:92-102 | the digits after /content/ in record j read back as j (no gaps), and the image path is the content path under openstack |
| Assembly.PlanIndicesDistinct | ampuole.py:92-102 | two different records never share a content path or an image path |
| Assembly.WalkAlwaysPlans | ampuole.py:90-95 | with the non-empty directory paths os.walk yields, os.path.join never fails and planning always succeeds |
| Assembly.RemoteDropsFirstSegment | ampuole.py:94-100 | when the part of the local path after its first '/' has no empty inner segment (no '//'), the guest path is '/' followed by that part; split and join would collapse a '//' there |
| Assembly.RemoteUnderRoot | ampuole.py:93-100 | a file at rel under a one-segment root goes to /rel in the guest |
| Assembly.NestedRemote | ampuole.py:93-100 | root/dir/name (say inject/etc/motd) goes to /dir/name |
| Assembly.OneFilePlan | ampuole.py:89-104 | an inject tree with one file root/dir/name plans exactly one record, numbered 0000, bound for /dir/name |
| Assembly.RewriteConfig | ampuole.py:113-116 | a mapping gets ssh_authorized_keys set to the key list and keeps every other field; any other document is left as it is |
| Assembly.RewrittenConfigCarriesKeys | ampuole.py:114 | reading the field back gives the key list for a mapping and nothing otherwise |
| Assembly.RewriteIdempotent | ampuole.py:113-116 | rewriting twice with the same keys is the same as rewriting once |
| Assembly.PublicKeys | ampuole.py:128-132 | one entry per key, str(i) maps to key i, and every entry's name is an index below the key count |
| Assembly.FileEntries | ampuole.py:134-139 | one entry per record, in order, holding its content path and guest path |
| Assembly.Metadata | ampuole.py:126-142 | public_keys is present iff there is a key, files is present iff there is a record, the contents are as above, hostname and name are the guest name, uuid is the UUID, and there are no other fields |
| Assembly.OneFileMetadata | ampuole.py:126-142 | with one record and no key, the dictionary is exactly files, hostname, name and uuid, without public_keys |
| Assembly.TwoKeyFilesGathered | ampuole.py:63-80 | two one-line key files in one directory give their two lines, stripped, in listing order |
| Assembly.TwoKeysTable | ampuole.py:128-132 | two keys give the table {"0": first, "1": second} |
| Assembly.UserDataMatchesMetadata | ampuole.py:114-132 | when the cloud-config is a mapping and there is a key, the rewritten ssh_authorized_keys list is the public_keys table read in index order |
| Assembly.Grafts | ampuole.py:166-169 | one isopath=local graft point per record, in order |
| Assembly.LatestPaths | ampuole.py:153-155 | the metadata and user data go to openstack/latest/meta_data.json and openstack/latest/user_data |
| Assembly.ConfigdriveCommand | ampuole.py:153-169 | the command is the fixed mkisofs prefix, the two openstack/latest grafts and one graft per record, 9 + n arguments in all |
| Assembly.MetadataMatchesImage | ampuole.py:133-169 | the i-th files entry and the i-th injected graft point describe the i-th walked file under the same index /content/nnnn |
| ConfigDrive.Ampuole.constructor | ampuole.py:25-45 | the settings are stored; there is no config, no key, no record and no file yet; the template context shows the empty lists |
| ConfigDrive.Ampuole.ExploreUserData | ampuole.py:47-54 | the parsed document is stored |
| ConfigDrive.Ampuole.GatherSshKeys | ampuole.py:56-80 | the key list grows by the stripped lines of every readable key file in walk order, then by the cloud-config's ssh_authorized_keys entries |
| ConfigDrive.Ampuole.GatherDirectory | ampuole.py:64-73 | one walk step appends the keys of its files in listing order |
| ConfigDrive.Ampuole.AppendFileKeys | ampuole.py:65-73 | one file appends its stripped lines, or nothing when it cannot be opened |
| ConfigDrive.Ampuole.AppendConfigKeys | ampuole.py:74-80 | the cloud-config's list is appended when there is one; otherwise nothing changes |
| ConfigDrive.Ampuole.GatherInjections | ampuole.py:82-105 | it succeeds exactly when there is a plan, and then appends exactly the planned records |
| ConfigDrive.Ampuole.NextInjection | ampuole.py:92-103 | the loop body builds the planned record for file j, or fails exactly when the local path has no '/' |
| ConfigDrive.Ampuole.RewriteCloudconfig | ampuole.py:107-120 | the document becomes RewriteConfig of itself and the key list, and the user-data file is recorded |
| ConfigDrive.Ampuole.PublicKeyTable | ampuole.py:127-132 | the loop builds exactly the public_keys table of the key list |
| ConfigDrive.Ampuole.FileList | ampuole.py:133-139 | the loop builds exactly the files list of the records |
| ConfigDrive.Ampuole.WriteMetadata | ampuole.py:122-147 | the stored dictionary is Metadata of the keys, the records, the guest name and the UUID, and the metadata file is recorded |
| ConfigDrive.Ampuole.MakeConfigdrive | ampuole.py:149-173 | the command is ConfigdriveCommand; the temporary files are removed only when mkisofs succeeds |
| ConfigDrive.Ampuole.GatherInputs | ampuole.py:176-178 | after parsing and gathering, the keys and records are those the functions above describe, and earlier records are always kept |
| ConfigDrive.Ampuole.BuildImage | ampuole.py:179-181 | after rewriting, writing the metadata and building the image, the state is the one the functions above describe, and both temporary files are recorded |
| ConfigDrive.Ampuole.Run | ampuole.py:175-181 | the whole run composes the steps and records both temporary files; when planning fails it stops with the parsed document, no new metadata, files or image; it succeeds only when mkisofs does |

## Left out

- Jinja2 loading and rendering, and `yaml.load`, are foreign library calls. The parsed document is an input of `ExploreUserData`.
- YAML and JSON serialisation, the `#cloud-config` header and the indentation are library formatting and file I/O. The model stops at the document value and the metadata dictionary. JSON key order is not modelled.
- `tempfile`, `os.remove` and `subprocess.check_call` touch the filesystem and run a process. File names and the exit status are parameters, and the files on disk are a set of names.
- `os.walk` and file reading are I/O. They are given as a walk sequence and an open function.
- `uuid.uuid4()` is random. The UUID is an opaque string.
- `argparse` handling is left out, including the `nargs=2` versus string-default mismatch at `ampuole.py:185`. So is the `logging` output.
- A `ssh_authorized_keys` value that is a string or a dictionary would be iterated character by character or key by key, and a list whose items are not all strings (say `[1, 2]`) would have every item appended. The model keeps only lists of strings; any other value is `Opaque` and contributes nothing.
- Aliasing is not tracked. The template context and the rewritten document share the key list with the object, as do `values['inject']` (`ampuole.py:105`) and the record list. `Values()` reads the fields, so it always shows the current contents, but in-place changes through one alias are not modelled.
- ConfigDrive.Ampuole.GatherInjections: when `os.path.join()` raises, the contract only says that the earlier records were kept. It does not say which records those are.
- ConfigDrive.Ampuole.GatherInputs and ConfigDrive.Ampuole.Run: when planning fails, they likewise say only that the earlier records were kept, not which ones were appended before the failing file.
- Assembly.RemoteUnderRoot: stated only for an inject directory of one segment. With a deeper directory, the code keeps every segment but the first, as `Assembly.RemoteDropsFirstSegment` states.
