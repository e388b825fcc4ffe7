/** What each step of the config-drive assembly computes, as functions of
    its inputs: the key list, the injection plan, the rewritten cloud-config,
    the metadata dictionary and the mkisofs command line.  The methods of
    ConfigDrive.Ampuole are proved to compute exactly these; the lemmas here
    state what the tool promises about them. */
module Assembly {
  import opened Options
  import opened PyStr
  import opened PosixPath
  import opened Documents
  import opened Seqs

  /** The environment's answer to open(path) followed by reading the whole
      file: None when open (or the read) raises IOError. */
  type Opener = string -> Option<string>

  // ----- Walking a directory tree -----

  /** The paths os.path.join(dirpath, f) of one walk step, in listing order. */
  function DirPaths(e: WalkEntry): seq<string> {
    seq(|e.filenames|, i requires 0 <= i < |e.filenames| => Join(e.dirpath, e.filenames[i]))
  }

  lemma DirPathsStep(e: WalkEntry, i: nat)
    requires i < |e.filenames|
    ensures DirPaths(e)[..i + 1] == DirPaths(e)[..i] + [Join(e.dirpath, e.filenames[i])]
  {
  }

  lemma DirPathsAll(e: WalkEntry)
    ensures DirPaths(e)[..|e.filenames|] == DirPaths(e)
  {
  }

  /** The number of file names the walk lists. */
  function FileCount(walk: seq<WalkEntry>): nat {
    if walk == [] then 0 else FileCount(walk[..|walk| - 1]) + |walk[|walk| - 1].filenames|
  }

  /** Every file path the walk lists, in walk order: one per file name. */
  function Paths(walk: seq<WalkEntry>): (ps: seq<string>)
    ensures |ps| == FileCount(walk)
  {
    if walk == [] then [] else Paths(walk[..|walk| - 1]) + DirPaths(walk[|walk| - 1])
  }

  lemma {:induction false} PathsPrefix(walk: seq<WalkEntry>, d: nat)
    requires d <= |walk|
    ensures Paths(walk[..d]) <= Paths(walk)
    decreases |walk|
  {
    if d < |walk| {
      var init := walk[..|walk| - 1];
      assert walk[..d] == init[..d];
      PathsPrefix(init, d);
    } else {
      assert walk[..d] == walk;
    }
  }

  /** The file paths of the first d walk steps, then the first i names of step d. */
  function PathsUpTo(walk: seq<WalkEntry>, d: nat, i: nat): seq<string>
    requires d < |walk| && i <= |walk[d].filenames|
  {
    Paths(walk[..d]) + DirPaths(walk[d])[..i]
  }

  /** The path visited at step d, name i, sits at its place in Paths(walk). */
  lemma PathAt(walk: seq<WalkEntry>, d: nat, i: nat)
    requires d < |walk| && i < |walk[d].filenames|
    ensures PathsUpTo(walk, d, i + 1) == PathsUpTo(walk, d, i) + [Join(walk[d].dirpath, walk[d].filenames[i])]
    ensures PathsUpTo(walk, d, i + 1) <= Paths(walk)
  {
    assert walk[..d + 1][..d] == walk[..d];
    PathsPrefix(walk, d + 1);
    assert DirPaths(walk[d])[..i + 1] == DirPaths(walk[d])[..i] + [Join(walk[d].dirpath, walk[d].filenames[i])];
  }

  lemma PathsSnoc(walk: seq<WalkEntry>, d: nat)
    requires d < |walk|
    ensures Paths(walk[..d + 1]) == Paths(walk[..d]) + DirPaths(walk[d])
  {
    assert walk[..d + 1][..d] == walk[..d];
  }

  /** Where the nested walk loops stand at the start and at the end of step d. */
  lemma PathsStep(walk: seq<WalkEntry>, d: nat)
    requires d < |walk|
    ensures PathsUpTo(walk, d, 0) == Paths(walk[..d])
    ensures PathsUpTo(walk, d, |walk[d].filenames|) == Paths(walk[..d + 1])
  {
    assert walk[..d + 1][..d] == walk[..d];
    assert DirPaths(walk[d])[..|walk[d].filenames|] == DirPaths(walk[d]);
  }

  // ----- Key aggregation (Ampuole.gather_ssh_keys) -----

  /** l.strip() of every line, one key per line, nothing filtered out. */
  function StripAll(lines: seq<string>): (keys: seq<string>)
    ensures |keys| == |lines|
    ensures forall i :: 0 <= i < |lines| ==> keys[i] == Strip(lines[i])
  {
    if lines == [] then [] else StripAll(lines[..|lines| - 1]) + [Strip(lines[|lines| - 1])]
  }

  lemma StripAllStep(lines: seq<string>, l: nat)
    requires l < |lines|
    ensures StripAll(lines[..l + 1]) == StripAll(lines[..l]) + [Strip(lines[l])]
  {
    assert lines[..l + 1][..l] == lines[..l];
  }

  /** The keys one key file contributes: its stripped lines, or nothing when it cannot be opened. */
  function FileKeys(open: Opener, path: string): seq<string> {
    match open(path)
    case None => []
    case Some(text) => StripAll(ReadLines(text))
  }

  /** The results of f on every element of xs, one after the other. */
  function FlatMap<T>(f: T -> seq<string>, xs: seq<T>): seq<string> {
    if xs == [] then [] else FlatMap(f, xs[..|xs| - 1]) + f(xs[|xs| - 1])
  }

  /** The keys of a sequence of key files, file after file. */
  function PathKeys(open: Opener, paths: seq<string>): seq<string> {
    FlatMap(p => FileKeys(open, p), paths)
  }

  lemma PathKeysSnoc(open: Opener, paths: seq<string>, p: string)
    ensures PathKeys(open, paths + [p]) == PathKeys(open, paths) + FileKeys(open, p)
  {
    assert (paths + [p])[..|paths|] == paths;
  }

  /** The entries of the parsed cloud-config's ssh_authorized_keys list.  A
      document that is not a mapping, a missing field, or a value that is not
      a list contributes nothing. */
  function ConfigKeys(cfg: CloudConfig): (keys: seq<string>)
    ensures keys != [] ==> cfg.Mapping? && AuthorizedKeysField in cfg.fields && cfg.fields[AuthorizedKeysField].Strings?
    ensures cfg.Mapping? && AuthorizedKeysField in cfg.fields && cfg.fields[AuthorizedKeysField].Strings?
            ==> keys == cfg.fields[AuthorizedKeysField].items
    ensures !cfg.Mapping? ==> keys == []
  {
    match cfg
    case Mapping(fields) =>
      if AuthorizedKeysField in fields && fields[AuthorizedKeysField].Strings? then fields[AuthorizedKeysField].items else []
    case _ => []
  }

  /** Everything gather_ssh_keys appends: the key files in walk order, then the cloud-config's list. */
  function GatheredKeys(open: Opener, walk: seq<WalkEntry>, cfg: CloudConfig): seq<string> {
    PathKeys(open, Paths(walk)) + ConfigKeys(cfg)
  }

  lemma {:induction false} FlatMapAppend<T>(f: T -> seq<string>, p: seq<T>, q: seq<T>)
    ensures FlatMap(f, p + q) == FlatMap(f, p) + FlatMap(f, q)
    decreases |q|
  {
    if q == [] {
      assert p + q == p;
    } else {
      var q' := q[..|q| - 1];
      assert (p + q)[..|p + q| - 1] == p + q';
      FlatMapAppend(f, p, q');
    }
  }

  /** Key files contribute in the order they are visited. */
  lemma PathKeysAppend(open: Opener, p: seq<string>, q: seq<string>)
    ensures PathKeys(open, p + q) == PathKeys(open, p) + PathKeys(open, q)
  {
    FlatMapAppend(p => FileKeys(open, p), p, q);
  }

  /** Dropping an element whose image is empty leaves the flattening unchanged. */
  lemma FlatMapSkip<T>(f: T -> seq<string>, xs: seq<T>, i: nat)
    requires i < |xs| && f(xs[i]) == []
    ensures FlatMap(f, xs) == FlatMap(f, xs[..i] + xs[i + 1..])
  {
    var a, x, b := xs[..i], xs[i], xs[i + 1..];
    SplitAt(xs, i);
    FlatMapAppend(f, a + [x], b);
    FlatMapAppend(f, a, [x]);
    assert FlatMap(f, [x]) == [] by {
      assert [x][..0] == [];
    }
    assert FlatMap(f, a) + [] == FlatMap(f, a);
    FlatMapAppend(f, a, b);
  }

  /** When every element yields exactly one string, the flattening is those strings in order. */
  lemma {:induction false} FlatMapSingletons<T>(f: T -> seq<string>, xs: seq<T>)
    requires forall i :: 0 <= i < |xs| ==> |f(xs[i])| == 1
    ensures |FlatMap(f, xs)| == |xs|
    ensures forall i :: 0 <= i < |xs| ==> FlatMap(f, xs)[i] == f(xs[i])[0]
  {
    if xs != [] {
      FlatMapSingletons(f, xs[..|xs| - 1]);
    }
  }

  /** A file that cannot be opened is skipped: the keys are those of the other files. */
  lemma UnreadableFileSkipped(open: Opener, paths: seq<string>, i: nat)
    requires i < |paths| && open(paths[i]).None?
    ensures PathKeys(open, paths) == PathKeys(open, paths[..i] + paths[i + 1..])
  {
    var f := p => FileKeys(open, p);
    assert f(paths[i]) == [];
    FlatMapSkip(f, paths, i);
  }

  /** A text of exactly one line, with or without its newline. */
  predicate OneLine(text: string) {
    text != "" && '\n' !in text[..|text| - 1]
  }

  lemma OneLineReadsAsOne(text: string)
    requires OneLine(text)
    ensures ReadLines(text) == [text]
  {
    var k := LineLength(text);
    assert text[..k] == text;
    assert text[k..] == "";
    assert ReadLines("") == [];
  }

  /** N readable key files of one line each give exactly N keys, the i-th
      being the i-th file's line stripped. */
  lemma OneKeyPerOneLineFile(open: Opener, paths: seq<string>)
    requires forall i :: 0 <= i < |paths| ==> open(paths[i]).Some? && OneLine(open(paths[i]).value)
    ensures |PathKeys(open, paths)| == |paths|
    ensures forall i :: 0 <= i < |paths| ==> PathKeys(open, paths)[i] == Strip(open(paths[i]).value)
  {
    var f := p => FileKeys(open, p);
    forall i | 0 <= i < |paths|
      ensures f(paths[i]) == [Strip(open(paths[i]).value)]
    {
      OneLineReadsAsOne(open(paths[i]).value);
    }
    FlatMapSingletons(f, paths);
  }

  // ----- Injection planning (Ampuole.gather_injections) -----

  /** The guest path of a local file: '/' followed by os.path.join of the
      local path's segments after the first.  None stands for the TypeError
      os.path.join() raises when the local path has no '/' at all. */
  function Remote(local: string): (r: Option<string>)
    ensures r.Some? <==> '/' in local
  {
    var parts := Split(local);
    if |parts| >= 2 then Some("/" + JoinAll(parts[1..])) else None
  }

  /** The record for the j-th file: its content path and image path share
      the four-digit index j. */
  function MakeInjection(local: string, j: nat): (rec: Injection)
    requires '/' in local
    ensures rec.local == local && Remote(local) == Some(rec.remote)
    ensures rec.mdpath == "/content/" + FourDigit(j)
    ensures rec.isopath == "openstack/content/" + FourDigit(j)
  {
    var index := FourDigit(j);
    assert IsDigit(index[0]);
    var mdpath := Join("content", index);
    Injection(local, Remote(local).value, "/" + mdpath, Join("openstack", mdpath))
  }

  predicate AllHaveSep(paths: seq<string>) {
    forall i :: 0 <= i < |paths| ==> '/' in paths[i]
  }

  /** The records of a sequence of local paths, numbered from 0. */
  function Records(locals: seq<string>): (recs: seq<Injection>)
    requires AllHaveSep(locals)
    ensures |recs| == |locals|
  {
    if locals == [] then []
    else Records(locals[..|locals| - 1]) + [MakeInjection(locals[|locals| - 1], |locals| - 1)]
  }

  /** Record j is built from local path j and numbered j. */
  lemma {:induction false} RecordAt(locals: seq<string>, j: nat)
    requires AllHaveSep(locals) && j < |locals|
    ensures Records(locals)[j] == MakeInjection(locals[j], j)
  {
    if j < |locals| - 1 {
      var init := locals[..|locals| - 1];
      assert init[j] == locals[j];
      RecordAt(init, j);
    }
  }

  lemma RecordsEach(locals: seq<string>)
    requires AllHaveSep(locals)
    ensures forall j :: 0 <= j < |locals| ==> Records(locals)[j] == MakeInjection(locals[j], j)
  {
    forall j | 0 <= j < |locals|
      ensures Records(locals)[j] == MakeInjection(locals[j], j)
    {
      RecordAt(locals, j);
    }
  }

  lemma RecordsSnoc(locals: seq<string>, l: string)
    requires AllHaveSep(locals) && '/' in l
    ensures AllHaveSep(locals + [l])
    ensures Records(locals + [l]) == Records(locals) + [MakeInjection(l, |locals|)]
  {
    var ls := locals + [l];
    assert ls[..|locals|] == locals;
    assert AllHaveSep(ls) by {
      forall j | 0 <= j < |ls| ensures '/' in ls[j] {
        if j < |locals| { assert ls[j] == locals[j]; }
      }
    }
  }

  /** The record for the j-th file, field by field as the loop builds it. */
  lemma InjectionFields(local: string, j: nat)
    requires |Split(local)[1..]| > 0
    ensures '/' in local
    ensures MakeInjection(local, j)
            == Injection(local, "/" + JoinAll(Split(local)[1..]),
                         "/" + Join("content", FourDigit(j)),
                         Join("openstack", Join("content", FourDigit(j))))
  {
  }

  /** A visited local path without '/' means there is no plan. */
  lemma NoSepNoPlan(walk: seq<WalkEntry>, visited: seq<string>, local: string)
    requires visited + [local] <= Paths(walk)
    requires '/' !in local
    ensures PlanInjections(walk).None?
  {
    assert Paths(walk)[|visited|] == local;
  }

  /** The injection plan of a walk: one record per listed file, in walk
      order, the j-th numbered j; None when some local path makes
      os.path.join() fail. */
  function PlanInjections(walk: seq<WalkEntry>): (plan: Option<seq<Injection>>)
    ensures plan.Some? <==> AllHaveSep(Paths(walk))
    ensures plan.Some? ==> |plan.value| == FileCount(walk)
    ensures plan.Some? ==> forall j :: 0 <= j < |plan.value| ==>
              && plan.value[j].local == Paths(walk)[j]
              && Remote(Paths(walk)[j]) == Some(plan.value[j].remote)
              && plan.value[j].mdpath == "/content/" + FourDigit(j)
              && plan.value[j].isopath == "openstack/content/" + FourDigit(j)
  {
    var locals := Paths(walk);
    if AllHaveSep(locals) then
      RecordsEach(locals);
      Some(Records(locals))
    else None
  }

  /** No gaps: the index read back out of the j-th content path is j, and
      the image path is the content path under "openstack". */
  lemma PlanIndexReadsBack(walk: seq<WalkEntry>, j: nat)
    requires PlanInjections(walk).Some? && j < |PlanInjections(walk).value|
    ensures var rec := PlanInjections(walk).value[j];
            && rec.mdpath[..9] == "/content/"
            && AllDigits(rec.mdpath[9..])
            && DecimalValue(rec.mdpath[9..]) == j
            && rec.isopath == "openstack" + rec.mdpath
  {
    var rec := PlanInjections(walk).value[j];
    var pre, digits := "/content/", FourDigit(j);
    assert rec.mdpath == pre + digits && |pre| == 9;
    AppendSlices(pre, digits);
    UnderOpenstack(digits);
  }

  /** The image path of a content path is that path under "openstack". */
  lemma UnderOpenstack(digits: string)
    ensures "openstack/content/" + digits == "openstack" + ("/content/" + digits)
  {
    AppendAssoc("openstack", "/content/", digits);
    assert "openstack" + "/content/" == "openstack/content/";
  }

  /** Two records numbered differently never share a content path or an image path. */
  lemma RecordsApart(a: Injection, b: Injection, i: nat, k: nat)
    requires a.mdpath == "/content/" + FourDigit(i) && a.isopath == "openstack/content/" + FourDigit(i)
    requires b.mdpath == "/content/" + FourDigit(k) && b.isopath == "openstack/content/" + FourDigit(k)
    requires i != k
    ensures a.mdpath != b.mdpath && a.isopath != b.isopath
  {
    assert a.mdpath[9..] == FourDigit(i) && b.mdpath[9..] == FourDigit(k);
    assert a.isopath[18..] == FourDigit(i) && b.isopath[18..] == FourDigit(k);
    assert DecimalValue(FourDigit(i)) != DecimalValue(FourDigit(k));
  }

  /** No duplicates: two different records never share a content path or an image path. */
  lemma PlanIndicesDistinct(walk: seq<WalkEntry>, i: nat, k: nat)
    requires PlanInjections(walk).Some?
    requires i < |PlanInjections(walk).value| && k < |PlanInjections(walk).value| && i != k
    ensures PlanInjections(walk).value[i].mdpath != PlanInjections(walk).value[k].mdpath
    ensures PlanInjections(walk).value[i].isopath != PlanInjections(walk).value[k].isopath
  {
    var plan := PlanInjections(walk).value;
    RecordsApart(plan[i], plan[k], i, k);
  }

  lemma JoinHasSep(a: string, b: string)
    requires a != ""
    ensures '/' in Join(a, b)
  {
    if |b| > 0 && b[0] == '/' {
      assert b[0] in b;
    } else if a[|a| - 1] == '/' {
      assert (a + b)[|a| - 1] == '/';
    } else {
      assert (a + "/" + b)[|a|] == '/';
    }
  }

  /** os.walk never yields an empty directory path, so planning never fails on a real walk. */
  lemma {:induction false} WalkAlwaysPlans(walk: seq<WalkEntry>)
    requires forall d :: 0 <= d < |walk| ==> walk[d].dirpath != ""
    ensures PlanInjections(walk).Some?
  {
    if walk != [] {
      var init := walk[..|walk| - 1];
      var e := walk[|walk| - 1];
      WalkAlwaysPlans(init);
      forall i | 0 <= i < |e.filenames|
        ensures '/' in DirPaths(e)[i]
      {
        JoinHasSep(e.dirpath, e.filenames[i]);
      }
      assert AllHaveSep(Paths(init));
      assert Paths(walk) == Paths(init) + DirPaths(e);
    }
  }

  /** The guest path drops the first segment of the local path and keeps the
      rest as written (so "inject/etc/motd" becomes "/etc/motd"), provided
      the rest has no empty segment inside it. */
  lemma RemoteDropsFirstSegment(local: string)
    requires '/' in local
    requires NoEmptyInnerSegment(local[IndexOf(local, '/') + 1..])
    ensures Remote(local) == Some("/" + local[IndexOf(local, '/') + 1..])
  {
    var rest := local[IndexOf(local, '/') + 1..];
    assert Split(local)[1..] == Split(rest);
    JoinAllIsIntercalate(Split(rest));
  }

  /** A file at relative path rel under a one-segment root lands at "/" + rel
      in the guest; a file directly under the root (rel a bare name) too. */
  lemma RemoteUnderRoot(root: string, rel: string)
    requires root != "" && '/' !in root
    requires rel != "" && rel[0] != '/' && NoEmptyInnerSegment(rel)
    ensures Remote(Join(root, rel)) == Some("/" + rel)
  {
    var local := root + "/" + rel;
    assert Join(root, rel) == local by {
      assert root[|root| - 1] in root;
    }
    assert '/' in local by { assert local[|root|] == '/'; }
    var k := IndexOf(local, '/');
    IndexOfAfter(root, '/', rel);
    assert local[k + 1..] == rel;
    RemoteDropsFirstSegment(local);
  }

  // ----- Config rewrite (Ampuole.rewrite_cloudconfig) -----

  /** The cloud-config with ssh_authorized_keys set to the aggregated list and
      every other field as it was; a document that is not a mapping is left
      just as it is. */
  function RewriteConfig(cfg: CloudConfig, keys: seq<string>): (r: CloudConfig)
    ensures r.Mapping? <==> cfg.Mapping?
    ensures cfg.Mapping? ==> r.fields.Keys == cfg.fields.Keys + {AuthorizedKeysField}
    ensures cfg.Mapping? ==> r.fields[AuthorizedKeysField] == Strings(keys)
    ensures cfg.Mapping? ==> forall f :: f in cfg.fields && f != AuthorizedKeysField ==> r.fields[f] == cfg.fields[f]
    ensures !cfg.Mapping? ==> r == cfg
  {
    match cfg
    case Mapping(fields) => Mapping(fields[AuthorizedKeysField := Strings(keys)])
    case _ => cfg
  }

  /** Reading the keys back out of the rewritten user data gives the
      aggregated list when the document is a mapping, and nothing otherwise. */
  lemma RewrittenConfigCarriesKeys(cfg: CloudConfig, keys: seq<string>)
    ensures ConfigKeys(RewriteConfig(cfg, keys)) == if cfg.Mapping? then keys else []
  {
  }

  /** Rewriting again with the same keys changes nothing. */
  lemma RewriteIdempotent(cfg: CloudConfig, keys: seq<string>)
    ensures RewriteConfig(RewriteConfig(cfg, keys), keys) == RewriteConfig(cfg, keys)
  {
  }

  // ----- Metadata (Ampuole.write_metadata) -----

  /** The public_keys table: str(i) maps to the i-th key, and nothing else is in it. */
  function PublicKeys(keys: seq<string>): (table: map<string, string>)
    ensures |table| == |keys|
    ensures forall i :: 0 <= i < |keys| ==> NatToString(i) in table && table[NatToString(i)] == keys[i]
    ensures forall k :: k in table ==> AllDigits(k) && DecimalValue(k) < |keys|
  {
    if keys == [] then map[]
    else
      var n := |keys| - 1;
      var prev := PublicKeys(keys[..n]);
      assert NatToString(n) !in prev;
      prev[NatToString(n) := keys[n]]
  }

  /** The files list: one {content_path, path} entry per record, in planning order. */
  function FileEntries(inject: seq<Injection>): (entries: seq<FileEntry>)
    ensures |entries| == |inject|
    ensures forall i :: 0 <= i < |inject| ==> entries[i] == FileEntry(inject[i].mdpath, inject[i].remote)
  {
    if inject == [] then []
    else
      var last := inject[|inject| - 1];
      FileEntries(inject[..|inject| - 1]) + [FileEntry(last.mdpath, last.remote)]
  }

  /** The metadata dictionary.  public_keys is there exactly when there is a
      key, files exactly when there is a record; hostname and name are the
      guest name and uuid the UUID's string form. */
  function Metadata(keys: seq<string>, inject: seq<Injection>, guestname: string, uuid: string): (md: map<string, MetaValue>)
    ensures "public_keys" in md <==> |keys| > 0
    ensures |keys| > 0 ==> md["public_keys"].KeyTable? && |md["public_keys"].keys| == |keys|
    ensures |keys| > 0 ==> forall i :: 0 <= i < |keys| ==>
              NatToString(i) in md["public_keys"].keys && md["public_keys"].keys[NatToString(i)] == keys[i]
    ensures "files" in md <==> |inject| > 0
    ensures |inject| > 0 ==> md["files"].Files? && |md["files"].entries| == |inject|
    ensures |inject| > 0 ==> forall i :: 0 <= i < |inject| ==>
              md["files"].entries[i] == FileEntry(inject[i].mdpath, inject[i].remote)
    ensures "hostname" in md && md["hostname"] == Str(guestname)
    ensures "name" in md && md["name"] == Str(guestname)
    ensures "uuid" in md && md["uuid"] == Str(uuid)
    ensures md.Keys <= {"public_keys", "files", "hostname", "name", "uuid"}
  {
    var withKeys: map<string, MetaValue> := if |keys| > 0 then map["public_keys" := KeyTable(PublicKeys(keys))] else map[];
    var withFiles := if |inject| > 0 then withKeys["files" := Files(FileEntries(inject))] else withKeys;
    withFiles["hostname" := Str(guestname)]["name" := Str(guestname)]["uuid" := Str(uuid)]
  }

  // ----- The mkisofs command (Ampuole.make_configdrive) -----

  /** A graft point: the path inside the image, '=', the local file. */
  function Graft(imagePath: string, localPath: string): string {
    imagePath + "=" + localPath
  }

  /** One graft point per record, in planning order. */
  function Grafts(inject: seq<Injection>): (gs: seq<string>)
    ensures |gs| == |inject|
    ensures forall i :: 0 <= i < |inject| ==> gs[i] == inject[i].isopath + "=" + inject[i].local
  {
    if inject == [] then []
    else
      var last := inject[|inject| - 1];
      Grafts(inject[..|inject| - 1]) + [Graft(last.isopath, last.local)]
  }

  /** The fixed start of the command, up to and including -graft-points. */
  function CommandPrefix(outputIso: string): seq<string> {
    ["mkisofs", "-J", "-r", "-R", "-o", outputIso, "-graft-points"]
  }

  /** The mkisofs argument list: the fixed prefix, the metadata and user-data
      graft points under openstack/latest, then one graft point per record. */
  function ConfigdriveCommand(outputIso: string, mdfile: string, udfile: string, inject: seq<Injection>): (cmd: seq<string>)
    ensures |cmd| == 9 + |inject|
    ensures cmd[..7] == ["mkisofs", "-J", "-r", "-R", "-o", outputIso, "-graft-points"]
    ensures cmd[7] == "openstack/latest/meta_data.json=" + mdfile
    ensures cmd[8] == "openstack/latest/user_data=" + udfile
    ensures forall i :: 0 <= i < |inject| ==> cmd[9 + i] == inject[i].isopath + "=" + inject[i].local
  {
    var prefix := Join("openstack", "latest");
    var mdin := Join(prefix, "meta_data.json");
    var udin := Join(prefix, "user_data");
    LatestPaths();
    var head := CommandPrefix(outputIso) + [Graft(mdin, mdfile), Graft(udin, udfile)];
    assert |head| == 9 && head[..7] == CommandPrefix(outputIso);
    var cmd := head + Grafts(inject);
    assert cmd[..9] == head;
    cmd
  }

  /** Where the metadata and the user data go in the image. */
  lemma LatestPaths()
    ensures Join(Join("openstack", "latest"), "meta_data.json") == "openstack/latest/meta_data.json"
    ensures Join(Join("openstack", "latest"), "user_data") == "openstack/latest/user_data"
  {
    assert Join("openstack", "latest") == "openstack/latest";
  }

  // ----- Across the steps -----

  lemma GraftUnderOpenstack(rec: Injection, j: nat)
    requires rec.mdpath == "/content/" + FourDigit(j) && rec.isopath == "openstack/content/" + FourDigit(j)
    ensures rec.isopath + "=" + rec.local == "openstack" + rec.mdpath + "=" + rec.local
  {
    UnderOpenstack(FourDigit(j));
  }

  /** The metadata's files list and the image's graft points describe the
      same files in the same order: the i-th entry's content path carries
      index i, and the i-th injected graft point puts the i-th walked file at
      that content path under "openstack". */
  lemma MetadataMatchesImage(walk: seq<WalkEntry>, keys: seq<string>, guestname: string, uuid: string,
                              outputIso: string, mdfile: string, udfile: string)
    requires PlanInjections(walk).Some?
    ensures var inject := PlanInjections(walk).value;
            var md := Metadata(keys, inject, guestname, uuid);
            var cmd := ConfigdriveCommand(outputIso, mdfile, udfile, inject);
            && ("files" in md <==> FileCount(walk) > 0)
            && |cmd| == 9 + FileCount(walk)
            && forall i :: 0 <= i < FileCount(walk) ==>
                 && md["files"].entries[i].contentPath == "/content/" + FourDigit(i)
                 && cmd[9 + i] == "openstack" + md["files"].entries[i].contentPath + "=" + Paths(walk)[i]
  {
    var inject := PlanInjections(walk).value;
    var md := Metadata(keys, inject, guestname, uuid);
    var cmd := ConfigdriveCommand(outputIso, mdfile, udfile, inject);
    forall i | 0 <= i < FileCount(walk)
      ensures md["files"].entries[i].contentPath == "/content/" + FourDigit(i)
      ensures cmd[9 + i] == "openstack" + md["files"].entries[i].contentPath + "=" + Paths(walk)[i]
    {
      var rec := inject[i];
      assert md["files"].entries[i] == FileEntry(rec.mdpath, rec.remote);
      assert cmd[9 + i] == rec.isopath + "=" + rec.local;
      GraftUnderOpenstack(rec, i);
    }
  }

  /** The user data and the metadata advertise the same keys: when the
      cloud-config is a mapping, the rewritten ssh_authorized_keys list is
      the public_keys table read in index order. */
  lemma UserDataMatchesMetadata(cfg: CloudConfig, keys: seq<string>, inject: seq<Injection>, guestname: string, uuid: string)
    requires cfg.Mapping? && |keys| > 0
    ensures var table := Metadata(keys, inject, guestname, uuid)["public_keys"].keys;
            var listed := ConfigKeys(RewriteConfig(cfg, keys));
            && |listed| == |table|
            && forall i :: 0 <= i < |listed| ==> table[NatToString(i)] == listed[i]
  {
  }

  // ----- Two whole runs worked through -----

  /** A file two levels down, root/dir/name (say inject/etc/motd), lands at
      /dir/name in the guest. */
  lemma NestedRemote(root: string, dir: string, name: string)
    requires root != "" && dir != "" && name != ""
    requires '/' !in root && '/' !in dir && '/' !in name
    ensures Remote(root + "/" + dir + "/" + name) == Some("/" + dir + "/" + name)
  {
    var rel := dir + "/" + name;
    assert rel == dir + ['/'] + name;
    IndexOfAfter(dir, '/', name);
    assert rel[|dir| + 1..] == name && rel[..|dir|] == dir;
    assert Split(name) == [name];
    assert Split(rel) == [dir, name];
    assert rel[0] == dir[0] && dir[0] in dir;
    RemoteUnderRoot(root, rel);
    assert Join(root, rel) == root + "/" + rel by {
      assert root[|root| - 1] in root;
    }
    AppendAssoc(root + "/", dir + "/", name);
    AppendAssoc(root, "/", dir + "/");
    AppendAssoc(root + "/", dir, "/");
    assert root + "/" + rel == root + "/" + dir + "/" + name;
    AppendAssoc("/", dir + "/", name);
    AppendAssoc("/", dir, "/");
  }

  /** An inject tree holding one file, root/dir/name: the walk lists the
      root and then root/dir.  The plan has one record, numbered 0000, with
      guest path /dir/name. */
  lemma OneFilePlan(root: string, dir: string, name: string)
    requires root != "" && dir != "" && name != ""
    requires '/' !in root && '/' !in dir && '/' !in name
    ensures var local := root + "/" + dir + "/" + name;
            PlanInjections([WalkEntry(root, []), WalkEntry(root + "/" + dir, [name])])
            == Some([Injection(local, "/" + dir + "/" + name, "/content/" + FourDigit(0), "openstack/content/" + FourDigit(0))])
  {
    var walk := [WalkEntry(root, []), WalkEntry(root + "/" + dir, [name])];
    var local := root + "/" + dir + "/" + name;
    assert Join(root + "/" + dir, name) == local by {
      assert (root + "/" + dir)[|root + "/" + dir| - 1] == dir[|dir| - 1];
      assert dir[|dir| - 1] in dir;
      assert name[0] in name;
    }
    assert DirPaths(walk[1]) == [local];
    assert walk[..|walk| - 1] == walk[..1];
    assert walk[..1][..0] == [];
    assert Paths(walk) == [local];
    assert '/' in local by { assert local[|root|] == '/'; }
    assert AllHaveSep(Paths(walk));
    NestedRemote(root, dir, name);
    var rec := MakeInjection(local, 0);
    assert Records([local]) == [rec];
    assert rec == Injection(local, "/" + dir + "/" + name, "/content/" + FourDigit(0), "openstack/content/" + FourDigit(0));
  }

  /** With that one file and no key, the metadata is exactly the files list
      with the record's two paths, the host name twice and the UUID:
      public_keys is absent. */
  lemma OneFileMetadata(local: string, remote: string, mdpath: string, isopath: string, guestname: string, uuid: string)
    ensures Metadata([], [Injection(local, remote, mdpath, isopath)], guestname, uuid)
            == map["files" := Files([FileEntry(mdpath, remote)]),
                   "hostname" := Str(guestname), "name" := Str(guestname), "uuid" := Str(uuid)]
  {
    var inject := [Injection(local, remote, mdpath, isopath)];
    assert FileEntries(inject) == [FileEntry(mdpath, remote)];
  }

  /** Two one-line key files a and b listed in one directory, and no user
      data document: the keys are the two lines, stripped, in listing order. */
  lemma TwoKeyFilesGathered(open: Opener, dir: string, a: string, b: string, k1: string, k2: string)
    requires open(Join(dir, a)) == Some(k1) && open(Join(dir, b)) == Some(k2)
    requires OneLine(k1) && OneLine(k2)
    ensures GatheredKeys(open, [WalkEntry(dir, [a, b])], Null) == [Strip(k1), Strip(k2)]
  {
    var keys := [Strip(k1), Strip(k2)];
    TwoFilePaths(dir, a, b);
    TwoOneLineFiles(open, Join(dir, a), Join(dir, b), k1, k2);
    assert ConfigKeys(Null) == [];
    assert keys + [] == keys;
  }

  lemma TwoOneLineFiles(open: Opener, p: string, q: string, k1: string, k2: string)
    requires open(p) == Some(k1) && open(q) == Some(k2)
    requires OneLine(k1) && OneLine(k2)
    ensures PathKeys(open, [p, q]) == [Strip(k1), Strip(k2)]
  {
    FlatMapPair(x => FileKeys(open, x), p, q);
    OneLineFileKeys(open, p, k1);
    OneLineFileKeys(open, q, k2);
  }

  /** A one-line file contributes its line, stripped. */
  lemma OneLineFileKeys(open: Opener, p: string, k: string)
    requires open(p) == Some(k) && OneLine(k)
    ensures FileKeys(open, p) == [Strip(k)]
  {
    OneLineReadsAsOne(k);
    assert StripAll([k]) == [Strip(k)];
  }

  lemma FlatMapPair<T>(f: T -> seq<string>, x: T, y: T)
    ensures FlatMap(f, [x, y]) == f(x) + f(y)
  {
    assert [x, y][..1] == [x];
    assert [x][..0] == [];
    assert FlatMap(f, [x]) == [] + f(x);
    assert [] + f(x) == f(x);
  }

  lemma TwoFilePaths(dir: string, a: string, b: string)
    ensures Paths([WalkEntry(dir, [a, b])]) == [Join(dir, a), Join(dir, b)]
  {
    var walk := [WalkEntry(dir, [a, b])];
    assert DirPaths(walk[0]) == [Join(dir, a), Join(dir, b)];
    assert walk[..0] == [];
  }

  /** Two keys give the public_keys table {"0": first, "1": second}. */
  lemma TwoKeysTable(k1: string, k2: string)
    ensures PublicKeys([k1, k2]) == map["0" := k1, "1" := k2]
  {
    assert NatToString(0) == "0" && NatToString(1) == "1";
    assert [k1, k2][..1] == [k1];
    assert [k1][..0] == [];
  }

}
