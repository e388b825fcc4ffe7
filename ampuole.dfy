/** The Ampuole object: it accumulates the keys, the injection records and
    the rewritten cloud-config in its fields, one step after another, and
    finally hands mkisofs its command line.  Each method is proved to leave
    the state that the matching function of module Assembly describes. */
module ConfigDrive {
  import opened Options
  import opened PyStr
  import opened PosixPath
  import opened Documents
  import opened Assembly
  import opened Seqs

  class Ampuole {
    const guestname: string
    const injectDirectory: string
    const sshKeyDirectory: string
    const outputIso: string
    const userDataTemplate: string
    /** str() of the UUID drawn at start-up. */
    const uuid: string

    var cloudconfig: CloudConfig
    var injections: seq<Injection>
    var sshKeys: seq<string>
    /** The temporary files holding the user data and the metadata, once
        written.  The constructor's _udfile and _mdfile are never read
        again, and the steps set udfile and mdfile; one field stands for each pair. */
    var udfile: Option<string>
    var mdfile: Option<string>
    /** The metadata dictionary whose JSON text the metadata file holds. */
    var metadata: map<string, MetaValue>
    /** The temporary files still on disk. */
    var tempFiles: set<string>

    /** The template context.  It holds the key and injection lists
        themselves, so it always shows their current contents. */
    function Values(): TemplateValues
      reads this
    {
      TemplateValues(guestname, uuid, sshKeys, injections)
    }

    constructor (guestname: string, injectDirectory: string, sshKeyDirectory: string,
                 outputIso: string, userDataTemplate: string, uuid: string)
      ensures this.guestname == guestname && this.injectDirectory == injectDirectory
      ensures this.sshKeyDirectory == sshKeyDirectory && this.outputIso == outputIso
      ensures this.userDataTemplate == userDataTemplate && this.uuid == uuid
      ensures cloudconfig == Null && injections == [] && sshKeys == []
      ensures udfile == None && mdfile == None && metadata == map[] && tempFiles == {}
      ensures Values() == TemplateValues(guestname, uuid, [], [])
    {
      this.guestname := guestname;
      this.injectDirectory := injectDirectory;
      this.sshKeyDirectory := sshKeyDirectory;
      this.outputIso := outputIso;
      this.userDataTemplate := userDataTemplate;
      this.uuid := uuid;
      cloudconfig := Null;
      injections := [];
      sshKeys := [];
      udfile := None;
      mdfile := None;
      metadata := map[];
      tempFiles := {};
    }

    /** Records what yaml.load made of the rendered template (rendering and
        parsing happen outside the model). */
    method ExploreUserData(parsed: CloudConfig)
      modifies this`cloudconfig
      ensures cloudconfig == parsed
    {
      cloudconfig := parsed;
    }

    /** Appends the stripped lines of every key file that opens, in walk
        order, then the cloud-config's ssh_authorized_keys entries. */
    method GatherSshKeys(walk: seq<WalkEntry>, open: Opener)
      modifies this`sshKeys
      ensures sshKeys == old(sshKeys) + GatheredKeys(open, walk, cloudconfig)
    {
      var d := 0;
      while d < |walk|
        invariant 0 <= d <= |walk|
        invariant sshKeys == old(sshKeys) + PathKeys(open, Paths(walk[..d]))
      {
        GatherDirectory(walk[d], open);
        PathsSnoc(walk, d);
        PathKeysAppend(open, Paths(walk[..d]), DirPaths(walk[d]));
        AppendAssoc(old(sshKeys), PathKeys(open, Paths(walk[..d])), PathKeys(open, DirPaths(walk[d])));
        d := d + 1;
      }
      assert walk[..d] == walk;
      AppendConfigKeys();
      AppendAssoc(old(sshKeys), PathKeys(open, Paths(walk)), ConfigKeys(cloudconfig));
    }

    /** One step of the walk: the keys of its files, in listing order. */
    method GatherDirectory(entry: WalkEntry, open: Opener)
      modifies this`sshKeys
      ensures sshKeys == old(sshKeys) + PathKeys(open, DirPaths(entry))
    {
      var i := 0;
      while i < |entry.filenames|
        invariant 0 <= i <= |entry.filenames|
        invariant sshKeys == old(sshKeys) + PathKeys(open, DirPaths(entry)[..i])
      {
        var kf := Join(entry.dirpath, entry.filenames[i]);
        AppendFileKeys(open, kf);
        DirPathsStep(entry, i);
        PathKeysSnoc(open, DirPaths(entry)[..i], kf);
        AppendAssoc(old(sshKeys), PathKeys(open, DirPaths(entry)[..i]), FileKeys(open, kf));
        i := i + 1;
      }
      DirPathsAll(entry);
    }

    /** One key file: every line, stripped, becomes a key; an IOError from
        open() skips the file. */
    method AppendFileKeys(open: Opener, kf: string)
      modifies this`sshKeys
      ensures sshKeys == old(sshKeys) + FileKeys(open, kf)
    {
      var h := open(kf);
      if h.Some? {
        var lines := ReadLines(h.value);
        var l := 0;
        while l < |lines|
          invariant 0 <= l <= |lines|
          invariant sshKeys == old(sshKeys) + StripAll(lines[..l])
        {
          StripAllStep(lines, l);
          sshKeys := sshKeys + [Strip(lines[l])];
          l := l + 1;
        }
        assert lines[..l] == lines;
        assert FileKeys(open, kf) == StripAll(lines);
      }
    }

    /** The cloud-config's ssh_authorized_keys entries, when there are any. */
    method AppendConfigKeys()
      modifies this`sshKeys
      ensures sshKeys == old(sshKeys) + ConfigKeys(cloudconfig)
    {
      match cloudconfig {
        case Mapping(fields) =>
          if AuthorizedKeysField in fields {
            match fields[AuthorizedKeysField] {
              case Strings(items) =>
                var n := 0;
                while n < |items|
                  invariant 0 <= n <= |items|
                  invariant sshKeys == old(sshKeys) + items[..n]
                {
                  sshKeys := sshKeys + [items[n]];
                  n := n + 1;
                }
                assert items[..n] == items;
              case Opaque(_) =>
                // iterating a scalar raises TypeError, which is swallowed
            }
          }
          // a missing field raises KeyError, which is swallowed
        case _ =>
          // subscripting None or a non-mapping raises TypeError, which is swallowed
      }
    }

    /** Appends one record per file of the walk, numbered by a counter that
        starts at 0.  Returns false where os.path.join() would raise
        TypeError (a local path without '/'), which aborts the run. */
    method GatherInjections(walk: seq<WalkEntry>) returns (ok: bool)
      modifies this`injections
      ensures ok <==> PlanInjections(walk).Some?
      ensures ok ==> injections == old(injections) + PlanInjections(walk).value
      ensures old(injections) <= injections
    {
      var j := 0;
      var d := 0;
      while d < |walk|
        invariant 0 <= d <= |walk|
        invariant j == |Paths(walk[..d])|
        invariant AllHaveSep(Paths(walk[..d]))
        invariant injections == old(injections) + Records(Paths(walk[..d]))
        decreases |walk| - d
      {
        var dirpath := walk[d].dirpath;
        var filenames := walk[d].filenames;
        PathsStep(walk, d);
        var i := 0;
        ghost var done := Paths(walk[..d]);
        while i < |filenames|
          invariant 0 <= i <= |filenames|
          invariant done == PathsUpTo(walk, d, i)
          invariant j == |done|
          invariant AllHaveSep(done)
          invariant injections == old(injections) + Records(done)
          decreases |filenames| - i
        {
          var local := Join(dirpath, filenames[i]);
          PathAt(walk, d, i);
          var rec := NextInjection(local, j);
          if rec.None? {
            NoSepNoPlan(walk, done, local);
            return false;
          }
          RecordsSnoc(done, local);
          AppendAssoc(old(injections), Records(done), [rec.value]);
          injections := injections + [rec.value];
          done := done + [local];
          j := j + 1;
          i := i + 1;
        }
        d := d + 1;
      }
      assert walk[..d] == walk;
      return true;
    }

    /** The record for local path number j: its guest path (the segments
        after the first, joined) and its content path under the four-digit
        index.  None where os.path.join() of no segments raises TypeError. */
    method NextInjection(local: string, j: nat) returns (rec: Option<Injection>)
      ensures rec.Some? <==> '/' in local
      ensures rec.Some? ==> rec.value == MakeInjection(local, j)
    {
      var index := FourDigit(j);
      var expanded := Split(local)[1..];
      if |expanded| == 0 {
        return None;
      }
      var remote := JoinAll(expanded);
      var mdpath := Join("content", index);
      var isopath := Join("openstack", mdpath);
      InjectionFields(local, j);
      return Some(Injection(local, "/" + remote, "/" + mdpath, isopath));
    }

    /** Overwrites ssh_authorized_keys with the full key list (a document
        that is not a mapping is left alone) and writes the result to a new
        temporary file. */
    method RewriteCloudconfig(tempName: string)
      modifies this`cloudconfig, this`udfile, this`tempFiles
      ensures cloudconfig == RewriteConfig(old(cloudconfig), sshKeys)
      ensures udfile == Some(tempName) && tempFiles == old(tempFiles) + {tempName}
    {
      match cloudconfig {
        case Mapping(fields) =>
          cloudconfig := Mapping(fields[AuthorizedKeysField := Strings(sshKeys)]);
        case _ =>
          // item assignment on None or a non-mapping raises TypeError, which is swallowed
      }
      udfile := Some(tempName);
      tempFiles := tempFiles + {tempName};
    }

    /** The public_keys table: key number i under the name str(i). */
    method PublicKeyTable() returns (table: map<string, string>)
      ensures table == PublicKeys(sshKeys)
    {
      table := map[];
      var i := 0;
      while i < |sshKeys|
        invariant 0 <= i <= |sshKeys|
        invariant table == PublicKeys(sshKeys[..i])
      {
        assert sshKeys[..i + 1][..i] == sshKeys[..i];
        table := table[NatToString(i) := sshKeys[i]];
        i := i + 1;
      }
      assert sshKeys[..i] == sshKeys;
    }

    /** The files list: each record's content path and guest path, in planning order. */
    method FileList() returns (files: seq<FileEntry>)
      ensures files == FileEntries(injections)
    {
      files := [];
      var k := 0;
      while k < |injections|
        invariant 0 <= k <= |injections|
        invariant files == FileEntries(injections[..k])
      {
        assert injections[..k + 1][..k] == injections[..k];
        files := files + [FileEntry(injections[k].mdpath, injections[k].remote)];
        k := k + 1;
      }
      assert injections[..k] == injections;
    }

    /** Builds the metadata dictionary from the keys and the records and
        writes it to a new temporary file. */
    method WriteMetadata(tempName: string) returns (md: map<string, MetaValue>)
      modifies this`mdfile, this`metadata, this`tempFiles
      ensures md == Metadata(sshKeys, injections, guestname, uuid) && metadata == md
      ensures mdfile == Some(tempName) && tempFiles == old(tempFiles) + {tempName}
    {
      md := map[];
      if |sshKeys| > 0 {
        var table := PublicKeyTable();
        md := md["public_keys" := KeyTable(table)];
      }
      if |injections| > 0 {
        var files := FileList();
        md := md["files" := Files(files)];
      }
      md := md["hostname" := Str(guestname)];
      md := md["name" := Str(guestname)];
      md := md["uuid" := Str(uuid)];
      mdfile := Some(tempName);
      metadata := md;
      tempFiles := tempFiles + {tempName};
    }

    /** Builds the mkisofs command line and runs it; exitStatus is what the
        process returns.  The two temporary files are removed only when it
        succeeds. */
    method MakeConfigdrive(exitStatus: int) returns (cmd: seq<string>, ok: bool)
      requires mdfile.Some? && udfile.Some?
      modifies this`tempFiles
      ensures cmd == ConfigdriveCommand(outputIso, mdfile.value, udfile.value, injections)
      ensures ok <==> exitStatus == 0
      ensures ok ==> tempFiles == old(tempFiles) - {mdfile.value, udfile.value}
      ensures !ok ==> tempFiles == old(tempFiles)
    {
      var prefix := Join("openstack", "latest");
      var mdin := Join(prefix, "meta_data.json");
      var udin := Join(prefix, "user_data");
      var metadataGraft := mdin + "=" + mdfile.value;
      var userdataGraft := udin + "=" + udfile.value;
      cmd := ["mkisofs", "-J", "-r", "-R", "-o", outputIso, "-graft-points", metadataGraft, userdataGraft];
      var k := 0;
      while k < |injections|
        invariant 0 <= k <= |injections|
        invariant cmd == CommandPrefix(outputIso) + [metadataGraft, userdataGraft] + Grafts(injections[..k])
      {
        assert injections[..k + 1][..k] == injections[..k];
        cmd := cmd + [injections[k].isopath + "=" + injections[k].local];
        k := k + 1;
      }
      assert injections[..k] == injections;
      ok := exitStatus == 0;
      if ok {
        tempFiles := tempFiles - {mdfile.value};
        tempFiles := tempFiles - {udfile.value};
      }
      // a non-zero status raises CalledProcessError; the files stay for inspection
    }

    /** The first half of the run: parse the user data, then gather the
        keys and the injection records.  ok is false when gathering the
        injections raised. */
    method GatherInputs(parsed: CloudConfig, keyWalk: seq<WalkEntry>, open: Opener, injectWalk: seq<WalkEntry>)
      returns (ok: bool)
      modifies this`cloudconfig, this`sshKeys, this`injections
      ensures cloudconfig == parsed
      ensures sshKeys == old(sshKeys) + GatheredKeys(open, keyWalk, parsed)
      ensures ok <==> PlanInjections(injectWalk).Some?
      ensures ok ==> injections == old(injections) + PlanInjections(injectWalk).value
      ensures old(injections) <= injections
    {
      ExploreUserData(parsed);
      GatherSshKeys(keyWalk, open);
      ok := GatherInjections(injectWalk);
    }

    /** The second half of the run: write the user data and the metadata,
        then build the image.  ok is false when mkisofs fails. */
    method BuildImage(udName: string, mdName: string, exitStatus: int) returns (ok: bool, cmd: seq<string>)
      modifies this`cloudconfig, this`udfile, this`mdfile, this`metadata, this`tempFiles
      ensures cloudconfig == RewriteConfig(old(cloudconfig), sshKeys)
      ensures metadata == Metadata(sshKeys, injections, guestname, uuid)
      ensures cmd == ConfigdriveCommand(outputIso, mdName, udName, injections)
      ensures ok <==> exitStatus == 0
      ensures udfile == Some(udName) && mdfile == Some(mdName)
      ensures tempFiles == if ok then old(tempFiles) - {mdName, udName} else old(tempFiles) + {udName, mdName}
    {
      RewriteCloudconfig(udName);
      var md := WriteMetadata(mdName);
      cmd, ok := MakeConfigdrive(exitStatus);
    }

    /** The whole run, in the fixed order of the tool: parse, keys,
        injections, rewrite, metadata, image.  It stops at the first step
        that raises; cmd is empty when the image was never attempted. */
    method Run(parsed: CloudConfig, keyWalk: seq<WalkEntry>, open: Opener, injectWalk: seq<WalkEntry>,
               udName: string, mdName: string, exitStatus: int) returns (ok: bool, cmd: seq<string>)
      modifies this
      ensures sshKeys == old(sshKeys) + GatheredKeys(open, keyWalk, parsed)
      ensures ok ==> exitStatus == 0 && PlanInjections(injectWalk).Some?
      ensures old(injections) <= injections
      ensures PlanInjections(injectWalk).None? ==>
                && cmd == [] && cloudconfig == parsed && metadata == old(metadata)
                && udfile == old(udfile) && mdfile == old(mdfile) && tempFiles == old(tempFiles)
      ensures PlanInjections(injectWalk).Some? ==>
                && injections == old(injections) + PlanInjections(injectWalk).value
                && cloudconfig == RewriteConfig(parsed, sshKeys)
                && metadata == Metadata(sshKeys, injections, guestname, uuid)
                && udfile == Some(udName) && mdfile == Some(mdName)
                && cmd == ConfigdriveCommand(outputIso, mdName, udName, injections)
                && (ok <==> exitStatus == 0)
                && tempFiles == if ok then old(tempFiles) - {mdName, udName}
                                else old(tempFiles) + {udName, mdName}
    {
      ok := GatherInputs(parsed, keyWalk, open, injectWalk);
      cmd := [];
      if !ok {
        return;
      }
      ok, cmd := BuildImage(udName, mdName, exitStatus);
    }
  }

}
