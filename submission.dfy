/** The submission validator: walks `submission/<user>/<run_id>/` and checks
    each run's manifest, its four plots and its optional hardware description,
    stopping at the first failure. The file tree is given as data; whether a
    file parses as JSON and whether an image library accepts it are recorded
    on the file. */
module Submission {
  import opened Wrappers
  import opened Lists
  import opened Layout

  // ------------------------------------------------------------------ inputs

  /** A parsed JSON document. Objects are maps: extra keys are kept, key order is not. */
  datatype Json =
    | Null
    | Bool(b: bool)
    | Num(x: real)
    | Str(s: string)
    | Arr(items: seq<Json>)
    | Obj(fields: map<string, Json>)

  /** A node of the file tree. A file records its size in bytes, what it parses
      to as UTF-8 JSON (`None` if it does not), and whether the image library
      verifies it as an image. */
  datatype FsNode =
    | File(name: string, size: nat, json: Option<Json>, image: bool)
    | Dir(name: string, children: seq<FsNode>)

  function ChildrenOf(n: FsNode): seq<FsNode>
  {
    if n.Dir? then n.children else []
  }

  /** The entry called `name` in a directory (`path / name` exists). */
  function Child(children: seq<FsNode>, name: string): (r: Option<FsNode>)
    ensures r.Some? ==> r.value in children && r.value.name == name
    ensures r.None? ==> forall k :: 0 <= k < |children| ==> children[k].name != name
  {
    if children == [] then None
    else if children[0].name == name then Some(children[0])
    else Child(children[1..], name)
  }

  // ------------------------------------------------------ regular expressions

  /** `[a-z0-9._-]` */
  predicate UserChar(c: char)
  {
    ('a' <= c <= 'z') || ('0' <= c <= '9') || c == '.' || c == '_' || c == '-'
  }

  /** `[a-zA-Z0-9._:-]` */
  predicate RunChar(c: char)
  {
    ('a' <= c <= 'z') || ('A' <= c <= 'Z') || ('0' <= c <= '9') || c == '.' || c == '_' || c == ':' || c == '-'
  }

  predicate UserBody(s: string)
  {
    1 <= |s| <= 40 && forall i :: 0 <= i < |s| ==> UserChar(s[i])
  }

  predicate RunBody(s: string)
  {
    1 <= |s| <= 80 && forall i :: 0 <= i < |s| ==> RunChar(s[i])
  }

  /** `RE_USER.match(s)` for `^[a-z0-9._-]{1,40}$`. Python's `$` also matches
      just before a final newline, so one trailing "\n" is admitted. */
  predicate UserPatternMatches(s: string)
  {
    UserBody(s) || (|s| >= 1 && s[|s| - 1] == '\n' && UserBody(s[..|s| - 1]))
  }

  /** `RE_RUN.match(s)` for `^[a-zA-Z0-9._:-]{1,80}$`, with the same trailing-newline rule. */
  predicate RunPatternMatches(s: string)
  {
    RunBody(s) || (|s| >= 1 && s[|s| - 1] == '\n' && RunBody(s[..|s| - 1]))
  }

  /** What an accepted username looks like: 1 to 40 allowed characters,
      possibly followed by one newline; it never holds a '/' or an upper-case
      letter. Every string of 1 to 40 allowed characters is accepted. */
  lemma UsernameShape(s: string)
    ensures UserPatternMatches(s) ==>
              1 <= |s| <= 41 && '/' !in s
              && forall i :: 0 <= i < |s| ==> UserChar(s[i]) || (i == |s| - 1 && s[i] == '\n')
    ensures UserBody(s) ==> UserPatternMatches(s)
    ensures |s| == 0 || |s| > 41 ==> !UserPatternMatches(s)
    ensures UserPatternMatches(s) <==> exists t :: UserBody(t) && (s == t || s == t + "\n")
  {
    if UserPatternMatches(s) && !UserBody(s) {
      var t := s[..|s| - 1];
      assert forall i :: 0 <= i < |t| ==> s[i] == t[i];
      assert s == t + "\n";
    }
    if exists t :: UserBody(t) && (s == t || s == t + "\n") {
      var t :| UserBody(t) && (s == t || s == t + "\n");
      assert (t + "\n")[..|t|] == t;
    }
  }

  /** What an accepted run id looks like: 1 to 80 allowed characters, possibly
      followed by one newline; it never holds a '/'. */
  lemma RunIdShape(s: string)
    ensures RunPatternMatches(s) ==>
              1 <= |s| <= 81 && '/' !in s
              && forall i :: 0 <= i < |s| ==> RunChar(s[i]) || (i == |s| - 1 && s[i] == '\n')
    ensures RunBody(s) ==> RunPatternMatches(s)
    ensures |s| == 0 || |s| > 81 ==> !RunPatternMatches(s)
    ensures RunPatternMatches(s) <==> exists t :: RunBody(t) && (s == t || s == t + "\n")
  {
    if RunPatternMatches(s) && !RunBody(s) {
      var t := s[..|s| - 1];
      assert forall i :: 0 <= i < |t| ==> s[i] == t[i];
      assert s == t + "\n";
    }
    if exists t :: RunBody(t) && (s == t || s == t + "\n") {
      var t :| RunBody(t) && (s == t || s == t + "\n");
      assert (t + "\n")[..|t|] == t;
    }
  }

  /** Every acceptable name is also accepted with one newline after it, and
      never with two. */
  lemma TrailingNewlineAccepted(t: string)
    ensures UserBody(t) ==> UserPatternMatches(t + "\n")
    ensures RunBody(t) ==> RunPatternMatches(t + "\n")
    ensures !UserPatternMatches(t + "\n\n")
    ensures !RunPatternMatches(t + "\n\n")
  {
    assert (t + "\n")[..|t|] == t;
    var s := t + "\n\n";
    assert s[..|s| - 1] == t + "\n";
    assert s[|s| - 1] == '\n' && (t + "\n")[|t|] == '\n';
  }

  // ------------------------------------------------------------------ schema

  predicate StringOrAbsent(f: map<string, Json>, key: string)
  {
    key !in f || f[key].Str?
  }

  predicate NumberOrAbsent(f: map<string, Json>, key: string)
  {
    key !in f || f[key].Num?
  }

  /** The `metrics` sub-schema: an object whose three known keys, when present, are numbers. */
  predicate MetricsSchemaOk(j: Json)
  {
    && j.Obj?
    && NumberOrAbsent(j.fields, "avg_power_w")
    && NumberOrAbsent(j.fields, "peak_power_w")
    && NumberOrAbsent(j.fields, "energy_wh")
  }

  /** `MANIFEST_SCHEMA`: an object with string `username` and `run_id`; string
      `created` and `zenodo_html` when present; a valid `metrics` when present;
      any other keys allowed. */
  predicate SchemaOk(j: Json)
  {
    && j.Obj?
    && "username" in j.fields && j.fields["username"].Str?
    && "run_id" in j.fields && j.fields["run_id"].Str?
    && StringOrAbsent(j.fields, "created")
    && StringOrAbsent(j.fields, "zenodo_html")
    && ("metrics" !in j.fields || MetricsSchemaOk(j.fields["metrics"]))
  }

  const SchemaKeys: set<string> := {"username", "run_id", "created", "zenodo_html", "metrics"}

  /** Extra keys are allowed: adding or changing a key the schema does not
      name never changes the verdict. */
  lemma SchemaIgnoresExtraKeys(f: map<string, Json>, key: string, v: Json)
    requires key !in SchemaKeys
    ensures SchemaOk(Obj(f[key := v])) <==> SchemaOk(Obj(f))
  {
    var g := f[key := v];
    assert forall k :: k in SchemaKeys ==> (k in g <==> k in f) && (k in f ==> g[k] == f[k]);
  }

  // -------------------------------------------------------- per-run checks

  /** Why a run is rejected: one per `fail` call of the validator, and
      `ConfigNotADirectory` for the uncaught error `iterdir()` raises when
      `config` is a file (the job then exits with status 1 as well). */
  datatype Reason =
    | MissingManifest
    | ManifestNotJson
    | SchemaViolation
    | UsernameInvalid
    | RunIdInvalid
    | UsernameMismatch
    | RunIdMismatch
    | PngMissing(png: string)
    | PngTooLarge(png: string)
    | PngInvalid(png: string)
    | HardwareNotJson
    | ConfigNotADirectory

  const MaxPngMb: nat := 5
  const MaxPngBytes: nat := MaxPngMb * 1024 * 1024

  /** `validate_manifest` followed by the two folder-name comparisons. A
      directory named `manifest.json` exists but cannot be read as text. */
  function ManifestFailure(children: seq<FsNode>, user: string, run: string): (r: Option<Reason>)
    ensures r == Some(MissingManifest) <==> Child(children, ManifestFile).None?
    ensures r.Some? ==> r.value in {MissingManifest, ManifestNotJson, SchemaViolation, UsernameInvalid,
                                    RunIdInvalid, UsernameMismatch, RunIdMismatch}
  {
    match Child(children, ManifestFile)
    case None => Some(MissingManifest)
    case Some(n) =>
      if n.Dir? || n.json.None? then Some(ManifestNotJson)
      else
        var data := n.json.value;
        if !SchemaOk(data) then Some(SchemaViolation)
        else
          var username := data.fields["username"].s;
          var runId := data.fields["run_id"].s;
          if !UserPatternMatches(username) then Some(UsernameInvalid)
          else if !RunPatternMatches(runId) then Some(RunIdInvalid)
          else if username != user then Some(UsernameMismatch)
          else if runId != run then Some(RunIdMismatch)
          else None
  }

  /** `validate_png(energy / name)`: missing, larger than 5 MiB, or not an image.
      The size test `st_size / 2**20 > 5` is the integer test `st_size > 5 * 2**20`. */
  function PngFailure(energy: Option<FsNode>, name: string): (r: Option<Reason>)
    ensures r.None? <==> PngOk(energy, name)
    ensures r.Some? ==> r.value in {PngMissing(name), PngTooLarge(name), PngInvalid(name)}
  {
    var f := if energy.Some? then Child(ChildrenOf(energy.value), name) else None;
    match f
    case None => Some(PngMissing(name))
    case Some(n) =>
      if n.Dir? then Some(PngInvalid(name))
      else if n.size > MaxPngBytes then Some(PngTooLarge(name))
      else if !n.image then Some(PngInvalid(name))
      else None
  }

  /** The first failing plot, checked in the order of `names`. */
  function FirstPngFailure(energy: Option<FsNode>, names: seq<string>): Option<Reason>
  {
    if names == [] then None
    else
      var r := PngFailure(energy, names[0]);
      if r.Some? then r else FirstPngFailure(energy, names[1..])
  }

  /** Entry `k` is a directory and no entry before it is one. */
  predicate FirstDirAt(entries: seq<FsNode>, k: int)
  {
    0 <= k < |entries| && entries[k].Dir? && forall i :: 0 <= i < k ==> !entries[i].Dir?
  }

  /** `nodes[0]` of `[p for p in entries if p.is_dir()]`, `None` when that list is empty. */
  function FirstDir(entries: seq<FsNode>): (r: Option<FsNode>)
    ensures r.None? <==> forall k :: 0 <= k < |entries| ==> !entries[k].Dir?
    ensures r.Some? ==> exists k :: FirstDirAt(entries, k) && entries[k] == r.value
  {
    if entries == [] then None
    else if entries[0].Dir? then
      assert FirstDirAt(entries, 0);
      Some(entries[0])
    else
      var r := FirstDir(entries[1..]);
      assert forall k :: 1 <= k < |entries| ==> entries[1..][k - 1] == entries[k];
      assert r.Some? ==> exists k :: FirstDirAt(entries[1..], k) && entries[1..][k] == r.value;
      assert forall k :: FirstDirAt(entries[1..], k) ==> FirstDirAt(entries, k + 1);
      r
  }

  /** There is only one first directory. */
  lemma FirstDirAtUnique(entries: seq<FsNode>, k: int, k': int)
    requires FirstDirAt(entries, k) && FirstDirAt(entries, k')
    ensures k == k'
  {
  }

  /** `hw` exists but cannot be read as UTF-8 JSON. */
  predicate BadHardware(node: FsNode)
  {
    var hw := Child(ChildrenOf(node), "hardware.json");
    hw.Some? && (hw.value.Dir? || hw.value.json.None?)
  }

  /** The optional `config/<first node>/hardware.json` must parse as JSON when
      it exists; a `config` that is a file makes `iterdir()` raise. */
  function HardwareFailure(children: seq<FsNode>): Option<Reason>
  {
    var cfg := Child(children, "config");
    if cfg.None? then None
    else if cfg.value.File? then Some(ConfigNotADirectory)
    else
      var node := FirstDir(cfg.value.children);
      if node.None? then None
      else
        match Child(node.value.children, "hardware.json")
        case None => None
        case Some(hw) => if hw.Dir? || hw.json.None? then Some(HardwareNotJson) else None
  }

  /** A run found by the scan: its directory, the user folder name and the run folder name. */
  datatype Found = Found(runDir: FsNode, user: string, run: string)

  /** The checks of one run in the validator's fixed order: manifest, names,
      the four plots, then the hardware description. */
  function CheckRun(f: Found): Option<Reason>
  {
    var children := ChildrenOf(f.runDir);
    var m := ManifestFailure(children, f.user, f.run);
    if m.Some? then m
    else
      var p := FirstPngFailure(Child(children, EnergyDir), PlotNames);
      if p.Some? then p else HardwareFailure(children)
  }

  predicate PngOk(energy: Option<FsNode>, name: string)
  {
    energy.Some? && var n := Child(ChildrenOf(energy.value), name);
    n.Some? && n.value.File? && n.value.size <= MaxPngBytes && n.value.image
  }

  lemma {:induction false} FirstPngFailureNoneIff(energy: Option<FsNode>, names: seq<string>)
    ensures FirstPngFailure(energy, names).None? <==> forall k :: 0 <= k < |names| ==> PngOk(energy, names[k])
  {
    if names != [] {
      FirstPngFailureNoneIff(energy, names[1..]);
      assert forall k :: 1 <= k < |names| ==> names[1..][k - 1] == names[k];
    }
  }

  /** A failing plot check reports the first plot, in the order given, that
      fails, every plot before it having passed. */
  lemma {:induction false} FirstPngFailureIsFirst(energy: Option<FsNode>, names: seq<string>)
    ensures FirstPngFailure(energy, names).Some? ==>
              exists k :: 0 <= k < |names|
                          && (forall i :: 0 <= i < k ==> PngOk(energy, names[i]))
                          && PngFailure(energy, names[k]) == FirstPngFailure(energy, names)
  {
    if names != [] && PngFailure(energy, names[0]).None? {
      FirstPngFailureIsFirst(energy, names[1..]);
      if FirstPngFailure(energy, names).Some? {
        var k :| 0 <= k < |names[1..]|
                 && (forall i :: 0 <= i < k ==> PngOk(energy, names[1..][i]))
                 && PngFailure(energy, names[1..][k]) == FirstPngFailure(energy, names[1..]);
        assert forall i :: 1 <= i < k + 1 ==> names[i] == names[1..][i - 1];
        assert PngFailure(energy, names[k + 1]) == FirstPngFailure(energy, names);
      }
    }
  }

  /** The manifest is checked before anything else: a run without one is
      rejected for that whatever its plots and hardware description hold. */
  lemma ManifestCheckedFirst(f: Found)
    requires Child(ChildrenOf(f.runDir), ManifestFile).None?
    ensures CheckRun(f) == Some(MissingManifest)
  {
  }

  /** A run passes exactly when its manifest parses, fits the schema and the
      two patterns, names its own folders, all four plots are files of at
      most 5 MiB that verify as images, and any hardware description parses. */
  lemma RunAcceptedIff(f: Found)
    ensures CheckRun(f).None? <==>
      var children := ChildrenOf(f.runDir);
      var mf := Child(children, ManifestFile);
      && mf.Some? && mf.value.File? && mf.value.json.Some?
      && var data := mf.value.json.value;
      && SchemaOk(data)
      && UserPatternMatches(data.fields["username"].s)
      && RunPatternMatches(data.fields["run_id"].s)
      && data.fields["username"].s == f.user
      && data.fields["run_id"].s == f.run
      && (forall k :: 0 <= k < |PlotNames| ==> PngOk(Child(children, EnergyDir), PlotNames[k]))
      && HardwareFailure(children).None?
  {
    FirstPngFailureNoneIff(Child(ChildrenOf(f.runDir), EnergyDir), PlotNames);
  }

  /** The hardware check fails only for a `config` file, or for a
      `hardware.json` of the first directory under `config` that is unreadable;
      later node directories are never looked at. */
  lemma HardwareFailureIff(children: seq<FsNode>)
    ensures HardwareFailure(children) == Some(ConfigNotADirectory) <==>
              Child(children, "config").Some? && Child(children, "config").value.File?
    ensures HardwareFailure(children) == Some(HardwareNotJson) <==>
              var cfg := Child(children, "config");
              cfg.Some? && cfg.value.Dir?
              && exists k :: FirstDirAt(cfg.value.children, k) && BadHardware(cfg.value.children[k])
    ensures HardwareFailure(children).None? || HardwareFailure(children) in {Some(ConfigNotADirectory), Some(HardwareNotJson)}
  {
    var cfg := Child(children, "config");
    if cfg.Some? && cfg.value.Dir? {
      var es := cfg.value.children;
      if exists k :: FirstDirAt(es, k) {
        var k :| FirstDirAt(es, k);
        var k' :| FirstDirAt(es, k') && es[k'] == FirstDir(es).value;
        FirstDirAtUnique(es, k, k');
      }
    }
  }

  /** The size bound is inclusive: exactly 5 MiB passes, one byte more fails. */
  lemma PngSizeBound(name: string, ok: bool)
    ensures PngFailure(Some(Dir(EnergyDir, [File(name, MaxPngBytes, None, true)])), name).None?
    ensures PngFailure(Some(Dir(EnergyDir, [File(name, MaxPngBytes + 1, None, ok)])), name) == Some(PngTooLarge(name))
  {
  }

  // ------------------------------------------------------------------- scan

  /** What one entry of a user directory contributes: a run when it is a directory. */
  function RunOfDir(user: string): FsNode -> seq<Found>
  {
    (e: FsNode) => if e.Dir? then [Found(e, user, e.name)] else []
  }

  /** The runs of one user directory: its sub-directories, in listing order. */
  function RunsIn(user: string, entries: seq<FsNode>): seq<Found>
  {
    Collect(entries, RunOfDir(user))
  }

  /** What one entry of `submission/` contributes: the runs in it when it is a directory. */
  function RunsUnder(u: FsNode): seq<Found>
  {
    if u.Dir? then RunsIn(u.name, u.children) else []
  }

  /** The scan over the directories of `submission/`, in listing order. */
  function ScanAll(users: seq<FsNode>): seq<Found>
  {
    Collect(users, RunsUnder)
  }

  /** `scan_submissions(root)`; `root` is the listing of `submission/`, `None` when it does not exist. */
  function Scan(root: Option<seq<FsNode>>): seq<Found>
  {
    if root.None? then [] else ScanAll(root.value)
  }

  /** The inner loop of `scan_submissions`: the run directories of one user directory. */
  method ListRunDirs(user: string, entries: seq<FsNode>) returns (found: seq<Found>)
    ensures found == RunsIn(user, entries)
  {
    found := [];
    for j := 0 to |entries|
      invariant found == RunsIn(user, entries[..j])
    {
      var runDir := entries[j];
      assert entries[..j + 1] == entries[..j] + [runDir];
      CollectSnoc(entries[..j], runDir, RunOfDir(user));
      if runDir.Dir? {
        found := found + [Found(runDir, user, runDir.name)];
      }
    }
    assert entries[..|entries|] == entries;
  }

  /** `scan_submissions`, with its two nested loops. */
  method ScanSubmissions(root: Option<seq<FsNode>>) returns (pairs: seq<Found>)
    ensures pairs == Scan(root)
  {
    pairs := [];
    if root.None? {
      return;
    }
    var users := root.value;
    for i := 0 to |users|
      invariant pairs == ScanAll(users[..i])
    {
      var userDir := users[i];
      assert users[..i + 1] == users[..i] + [userDir];
      CollectSnoc(users[..i], userDir, RunsUnder);
      if !userDir.Dir? {
        continue;
      }
      var found := ListRunDirs(userDir.name, userDir.children);
      pairs := pairs + found;
    }
    assert users[..|users|] == users;
  }

  /** `f` is run directory `j` of user directory `i`. */
  predicate FoundAt(users: seq<FsNode>, i: int, j: int, f: Found)
  {
    && 0 <= i < |users| && users[i].Dir?
    && 0 <= j < |users[i].children| && users[i].children[j].Dir?
    && f == Found(users[i].children[j], users[i].name, users[i].children[j].name)
  }

  predicate FoundIn(name: string, entries: seq<FsNode>, j: int, f: Found)
  {
    0 <= j < |entries| && entries[j].Dir? && f == Found(entries[j], name, entries[j].name)
  }

  lemma RunsInMembership(name: string, entries: seq<FsNode>, f: Found)
    ensures f in RunsIn(name, entries) <==> exists j :: FoundIn(name, entries, j, f)
  {
    CollectMembership(entries, RunOfDir(name), f);
    if f in RunsIn(name, entries) {
      var j :| ContributedBy(entries, RunOfDir(name), j, f);
      assert FoundIn(name, entries, j, f);
    }
    if exists j :: FoundIn(name, entries, j, f) {
      var j :| FoundIn(name, entries, j, f);
      assert ContributedBy(entries, RunOfDir(name), j, f);
    }
  }

  /** The scan yields exactly the directories two levels below the root, each
      with its user folder's name and its own name; a missing root yields nothing. */
  lemma ScanMembership(root: Option<seq<FsNode>>, f: Found)
    ensures root.None? ==> Scan(root) == []
    ensures root.Some? ==> (f in Scan(root) <==> exists i, j :: FoundAt(root.value, i, j, f))
  {
    if root.Some? {
      ScanAllMembership(root.value, f);
    }
  }

  lemma ScanAllMembership(users: seq<FsNode>, f: Found)
    ensures f in ScanAll(users) <==> exists i, j :: FoundAt(users, i, j, f)
  {
    CollectMembership(users, RunsUnder, f);
    if f in ScanAll(users) {
      var i :| ContributedBy(users, RunsUnder, i, f);
      RunsInMembership(users[i].name, users[i].children, f);
      var j :| FoundIn(users[i].name, users[i].children, j, f);
      assert FoundAt(users, i, j, f);
    }
    if exists i, j :: FoundAt(users, i, j, f) {
      var i, j :| FoundAt(users, i, j, f);
      RunsInMembership(users[i].name, users[i].children, f);
      assert FoundIn(users[i].name, users[i].children, j, f);
      assert ContributedBy(users, RunsUnder, i, f);
    }
  }

  // ------------------------------------------------------------------- main

  /** The outcome of `main`: nothing found, every run valid, the first failure,
      or the uncaught error of `iterdir()` on a `submission` that is a file.
      Only the first two exit with status 0. */
  datatype Verdict =
    | NothingToValidate
    | AllValid
    | Rejected(user: string, run: string, reason: Reason)
    | RootNotADirectory

  /** What the scan lists for the `submission` entry: `None` when it does not
      exist, otherwise its children (a file has none, but the scan never gets
      that far on a file). */
  function RootListing(root: Option<FsNode>): Option<seq<FsNode>>
  {
    if root.None? then None else Some(ChildrenOf(root.value))
  }

  predicate RootIsFile(root: Option<FsNode>)
  {
    root.Some? && root.value.File?
  }

  /** `main`: scan `submission` (`None` when it does not exist), then check the
      runs in order, stopping at the first failure. */
  method ValidateSubmissions(root: Option<FsNode>) returns (v: Verdict)
    ensures v == RootNotADirectory <==> RootIsFile(root)
    ensures v == NothingToValidate <==> !RootIsFile(root) && Scan(RootListing(root)) == []
    ensures v == AllValid <==>
              && !RootIsFile(root)
              && Scan(RootListing(root)) != []
              && forall k :: 0 <= k < |Scan(RootListing(root))| ==> CheckRun(Scan(RootListing(root))[k]).None?
    ensures v.Rejected? ==>
              var runs := Scan(RootListing(root));
              exists k :: 0 <= k < |runs|
                          && (forall i :: 0 <= i < k ==> CheckRun(runs[i]).None?)
                          && CheckRun(runs[k]) == Some(v.reason)
                          && v.user == runs[k].user && v.run == runs[k].run
  {
    if root.Some? && root.value.File? {
      return RootNotADirectory;
    }
    var runs := ScanSubmissions(RootListing(root));
    if |runs| == 0 {
      return NothingToValidate;
    }
    for k := 0 to |runs|
      invariant forall i :: 0 <= i < k ==> CheckRun(runs[i]).None?
    {
      var failure := CheckRun(runs[k]);
      if failure.Some? {
        v := Rejected(runs[k].user, runs[k].run, failure.value);
        assert CheckRun(runs[k]) == Some(v.reason);
        return;
      }
    }
    v := AllValid;
  }
}
