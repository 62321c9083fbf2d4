/** The leaderboard index builder: crawls `submission/<user>/<run>` through
    directory listings, reads each run's manifest and turns it into one
    canonical leaderboard row. Listings and manifests are given as data. */
module Leaderboard {
  import opened Wrappers
  import opened Lists
  import opened Text
  import opened Layout
  import Topology

  // ---------------------------------------------------------------- listings

  /** One entry of a repository directory listing. */
  datatype Entry = Entry(name: string, kind: string, downloadUrl: Option<string>)

  /** Directory listings by repository path. */
  type Listings = map<string, seq<Entry>>

  /** The listing of `path`; a path that does not exist lists as empty. */
  function ListingAt(tree: Listings, path: string): seq<Entry>
  {
    if path in tree then tree[path] else []
  }

  predicate IsDir(e: Entry)
  {
    e.kind == "dir"
  }

  function ChildPath(parent: string, name: string): string
  {
    parent + "/" + name
  }

  /** A run found by the crawl: the user folder's name and the run's path. */
  datatype RunRef = RunRef(user: string, path: string)

  /** What one entry of a user directory contributes: a run when it is a directory. */
  function RunOfEntry(userPath: string, user: string): Entry -> seq<RunRef>
  {
    e => if IsDir(e) then [RunRef(user, ChildPath(userPath, e.name))] else []
  }

  /** The runs of one user directory: its sub-directories, in listing order. */
  function RunsOfUser(userPath: string, user: string, listing: seq<Entry>): seq<RunRef>
  {
    Collect(listing, RunOfEntry(userPath, user))
  }

  /** The runs one entry of the root listing contributes (none unless it is a directory). */
  function UserRuns(root: string, u: Entry, tree: Listings): seq<RunRef>
  {
    if IsDir(u) then
      var userPath := ChildPath(root, u.name);
      RunsOfUser(userPath, u.name, ListingAt(tree, userPath))
    else []
  }

  function UserRunsFor(root: string, tree: Listings): Entry -> seq<RunRef>
  {
    u => UserRuns(root, u, tree)
  }

  /** The two-level crawl users -> runs over the given root listing. */
  function Crawl(root: string, users: seq<Entry>, tree: Listings): seq<RunRef>
  {
    Collect(users, UserRunsFor(root, tree))
  }

  /** The inner loop of `list_runs`: the run directories of one user directory. */
  method ListUserRuns(userPath: string, user: string, listing: seq<Entry>) returns (found: seq<RunRef>)
    ensures found == RunsOfUser(userPath, user, listing)
  {
    found := [];
    for j := 0 to |listing|
      invariant found == RunsOfUser(userPath, user, listing[..j])
    {
      assert listing[..j + 1] == listing[..j] + [listing[j]];
      CollectSnoc(listing[..j], listing[j], RunOfEntry(userPath, user));
      if listing[j].kind == "dir" {
        found := found + [RunRef(user, ChildPath(userPath, listing[j].name))];
      }
    }
    assert listing[..|listing|] == listing;
  }

  /** `list_runs(root)`. */
  method ListRuns(root: string, tree: Listings) returns (runs: seq<RunRef>)
    ensures runs == Crawl(root, ListingAt(tree, root), tree)
  {
    var users := ListingAt(tree, root);
    runs := [];
    for i := 0 to |users|
      invariant runs == Crawl(root, users[..i], tree)
    {
      var user := users[i];
      assert users[..i + 1] == users[..i] + [user];
      CollectSnoc(users[..i], user, UserRunsFor(root, tree));
      if user.kind != "dir" {
        continue;
      }
      var userPath := ChildPath(root, user.name);
      var found := ListUserRuns(userPath, user.name, ListingAt(tree, userPath));
      runs := runs + found;
    }
    assert users[..|users|] == users;
  }

  /** `r` is the run found at directory `j` of user directory `i`. */
  predicate RunAt(root: string, users: seq<Entry>, tree: Listings, i: int, j: int, r: RunRef)
  {
    && 0 <= i < |users|
    && IsDir(users[i])
    && var userPath := ChildPath(root, users[i].name);
    && var listing := ListingAt(tree, userPath);
    && 0 <= j < |listing|
    && IsDir(listing[j])
    && r == RunRef(users[i].name, ChildPath(userPath, listing[j].name))
  }

  predicate RunInListing(userPath: string, user: string, listing: seq<Entry>, j: int, r: RunRef)
  {
    0 <= j < |listing| && IsDir(listing[j]) && r == RunRef(user, ChildPath(userPath, listing[j].name))
  }

  lemma RunsOfUserMembership(userPath: string, user: string, listing: seq<Entry>, r: RunRef)
    ensures r in RunsOfUser(userPath, user, listing) <==> exists j :: RunInListing(userPath, user, listing, j, r)
  {
    var f := RunOfEntry(userPath, user);
    CollectMembership(listing, f, r);
    if r in RunsOfUser(userPath, user, listing) {
      var j :| ContributedBy(listing, f, j, r);
      assert RunInListing(userPath, user, listing, j, r);
    }
    if exists j :: RunInListing(userPath, user, listing, j, r) {
      var j :| RunInListing(userPath, user, listing, j, r);
      assert ContributedBy(listing, f, j, r);
    }
  }

  /** A run is crawled exactly when it is a directory inside a directory of the
      root listing, with path `root/user/run`. */
  lemma CrawlMembership(root: string, users: seq<Entry>, tree: Listings, r: RunRef)
    ensures r in Crawl(root, users, tree) <==> exists i, j :: RunAt(root, users, tree, i, j, r)
  {
    var f := UserRunsFor(root, tree);
    CollectMembership(users, f, r);
    if r in Crawl(root, users, tree) {
      var i :| ContributedBy(users, f, i, r);
      var userPath := ChildPath(root, users[i].name);
      RunsOfUserMembership(userPath, users[i].name, ListingAt(tree, userPath), r);
      var j :| RunInListing(userPath, users[i].name, ListingAt(tree, userPath), j, r);
      assert RunAt(root, users, tree, i, j, r);
    }
    if exists i, j :: RunAt(root, users, tree, i, j, r) {
      var i, j :| RunAt(root, users, tree, i, j, r);
      var userPath := ChildPath(root, users[i].name);
      RunsOfUserMembership(userPath, users[i].name, ListingAt(tree, userPath), r);
      assert RunInListing(userPath, users[i].name, ListingAt(tree, userPath), j, r);
      assert ContributedBy(users, f, i, r);
    }
  }

  /** The crawl keeps listing order and treats each user on its own: crawling
      two listings one after the other crawls their concatenation. */
  lemma CrawlAppend(root: string, a: seq<Entry>, b: seq<Entry>, tree: Listings)
    ensures Crawl(root, a + b, tree) == Crawl(root, a, tree) + Crawl(root, b, tree)
  {
    CollectAppend(a, b, UserRunsFor(root, tree));
  }

  /** The id fallback of a crawled run is its run folder's name. */
  lemma CrawledRunLastSegment(root: string, users: seq<Entry>, tree: Listings, i: int, j: int, r: RunRef)
    requires RunAt(root, users, tree, i, j, r)
    requires '/' !in ListingAt(tree, ChildPath(root, users[i].name))[j].name
    ensures LastSegment(r.path) == ListingAt(tree, ChildPath(root, users[i].name))[j].name
  {
    var userPath := ChildPath(root, users[i].name);
    LastSegmentOfChild(userPath, ListingAt(tree, userPath)[j].name);
  }

  // --------------------------------------------------------------- manifests

  /** A string key read with `d.get(key, "")`: absent, JSON null, or a string.
      Unlike the keys read through an `or` chain, null and absent differ here. */
  datatype Field = Absent | Null | Text(text: string)

  /** `d.get(key, "")`: the default "" only for an absent key; a null is copied
      as null (`None` in a row). */
  function CopyField(f: Field): (r: Option<string>)
    ensures r.None? <==> f.Null?
    ensures f.Absent? ==> r == Some("")
    ensures f.Text? ==> r == Some(f.text)
  {
    match f
    case Absent => Some("")
    case Null => None
    case Text(t) => Some(t)
  }

  datatype Author = Author(displayName: Option<string>, name: Option<string>,
                           alternateName: Option<string>, handle: Option<string>,
                           affiliationName: Field, affiliationRor: Field)

  const NoAuthor := Author(None, None, None, None, Absent, Absent)

  /** The manifest's `processor` value: absent or null, present but not a list, or a list. */
  datatype ProcessorField = NoProcessor | NotAList | Listed(sockets: seq<Topology.Socket>)

  /** `threading_enabled`: absent, a JSON boolean, or any other value (null included). */
  datatype Flag = FlagAbsent | FlagBool(value: bool) | FlagOther

  /** Metric values are copied, never computed on. */
  datatype Metrics = Metrics(avgPowerW: Option<real>, peakPowerW: Option<real>, energyWh: Option<real>)

  const NoMetrics := Metrics(None, None, None)

  datatype Manifest = Manifest(
    runId: Option<string>,
    node: Field,
    created: Field,
    username: Option<string>,
    author: Option<Author>,
    processor: ProcessorField,
    threadingEnabled: Flag,
    metrics: Option<Metrics>,
    zenodoHtml: Field)

  /** The canonical leaderboard row. A `None` image slot is a matched plot without a download URL;
      a `None` in a copied string field is a JSON null copied from the manifest. */
  datatype Row = Row(
    id: string,
    user: string,
    userDisplay: string,
    affiliationName: Option<string>,
    affiliationRor: Option<string>,
    cpuLabel: string,
    cores: int,
    threads: int,
    htBadge: string,
    avgPowerW: Option<real>,
    peakPowerW: Option<real>,
    energyWh: Option<real>,
    created: Option<string>,
    zenodo: Option<string>,
    images: seq<Option<string>>,
    node: Option<string>)

  // ------------------------------------------------------- field resolution

  /** A string value Python treats as true: present and non-empty. */
  predicate Truthy(o: Option<string>)
  {
    o.Some? && o.value != ""
  }

  /** `c0 or c1 or ... or fallback`: the first present, non-empty candidate. */
  function FirstNonEmpty(cands: seq<Option<string>>, fallback: string): (r: string)
    ensures (forall j :: 0 <= j < |cands| ==> !Truthy(cands[j])) ==> r == fallback
    ensures forall i :: 0 <= i < |cands| && Truthy(cands[i]) && (forall j :: 0 <= j < i ==> !Truthy(cands[j]))
                        ==> r == cands[i].value
    ensures fallback != "" ==> r != ""
  {
    if cands == [] then fallback
    else if Truthy(cands[0]) then cands[0].value
    else
      var r := FirstNonEmpty(cands[1..], fallback);
      assert forall i :: 1 <= i < |cands| ==> cands[1..][i - 1] == cands[i];
      r
  }

  /** `user`: the manifest's `username`, else the user folder's name. */
  function UserOf(m: Manifest, run: RunRef): string
  {
    FirstNonEmpty([m.username], run.user)
  }

  /** `user_display`: display_name, name, alternateName, then the user. */
  function DisplayNameOf(m: Manifest, run: RunRef): string
  {
    var author := m.author.GetOr(NoAuthor);
    FirstNonEmpty([author.displayName, author.name, author.alternateName], UserOf(m, run))
  }

  /** The row's handle: handle, alternateName, then the user. */
  function HandleOf(m: Manifest, run: RunRef): string
  {
    var author := m.author.GetOr(NoAuthor);
    FirstNonEmpty([author.handle, author.alternateName], UserOf(m, run))
  }

  /** With no author object, the handle and the display name are both the
      resolved user: `username`, else the user folder's name. */
  lemma NoAuthorNames(m: Manifest, run: RunRef)
    requires m.author.None?
    ensures HandleOf(m, run) == DisplayNameOf(m, run) == UserOf(m, run)
    ensures UserOf(m, run) == (if Truthy(m.username) then m.username.value else run.user)
  {
  }

  /** `label`: "vendor model" of socket 0, stripped, or "unknown". */
  function CpuLabel(p: ProcessorField): (cpu: string)
    ensures cpu != ""
    ensures !p.Listed? || p.sockets == [] ==> cpu == "unknown"
    ensures p.Listed? && p.sockets != [] && !AllSpace(CpuText(p.sockets[0])) ==>
              cpu == Strip(CpuText(p.sockets[0]))
  {
    if p.Listed? && p.sockets != [] then
      var joined := Strip(CpuText(p.sockets[0]));
      StripEmptyIff(CpuText(p.sockets[0]));
      if joined == "" then "unknown" else joined
    else "unknown"
  }

  /** `f"{vendor} {model}"` of one socket, a missing field read as "". */
  function CpuText(s: Topology.Socket): string
  {
    s.vendor.GetOr("") + " " + s.model.GetOr("")
  }

  /** Only socket 0 names the CPU: the other sockets never change the label. */
  lemma CpuLabelFromFirstSocket(s: Topology.Socket, rest: seq<Topology.Socket>)
    ensures CpuLabel(Listed([s] + rest)) == CpuLabel(Listed([s]))
  {
  }

  /** The label is "unknown" exactly when there is no socket 0, its vendor and
      model are blank, or they spell "unknown"; it never has leading or
      trailing whitespace. */
  lemma CpuLabelUnknownIff(p: ProcessorField)
    ensures CpuLabel(p) == "unknown" <==>
              !p.Listed? || p.sockets == [] || AllSpace(CpuText(p.sockets[0]))
              || Strip(CpuText(p.sockets[0])) == "unknown"
    ensures !IsSpace(CpuLabel(p)[0]) && !IsSpace(CpuLabel(p)[|CpuLabel(p)| - 1])
  {
    if p.Listed? && p.sockets != [] {
      StripEmptyIff(CpuText(p.sockets[0]));
    }
  }

  /** `isinstance(ht, bool) and not ht`: the badge marks an explicit `false` only. */
  function HtBadge(f: Flag): (badge: string)
    ensures badge == " (HT off)" <==> f == FlagBool(false)
    ensures badge != " (HT off)" ==> badge == ""
  {
    if f.FlagBool? && !f.value then " (HT off)" else ""
  }

  /** What one socket adds to the row's totals: `int(p.get(key) or 0)`, with
      no fallback from threads to cores. */
  function RowCount(s: Topology.Socket, key: Topology.CountKey): int
  {
    match key
    case CoresKey => Topology.OrZero(s.cores)
    case ThreadsKey => Topology.OrZero(s.threads)
  }

  function RowTotal(ss: seq<Topology.Socket>, key: Topology.CountKey): int
  {
    if ss == [] then 0 else RowTotal(ss[..|ss| - 1], key) + RowCount(ss[|ss| - 1], key)
  }

  /** The sockets the totals are summed over. */
  function SocketList(p: ProcessorField): seq<Topology.Socket>
  {
    if p.Listed? then p.sockets else []
  }

  /** The row's core total is the one the experiment drivers compute. */
  lemma {:induction false} RowCoresMatchDrivers(ss: seq<Topology.Socket>)
    ensures RowTotal(ss, Topology.CoresKey) == Topology.Total(ss, Topology.CoresKey)
  {
    if ss != [] {
      RowCoresMatchDrivers(ss[..|ss| - 1]);
    }
  }

  /** The cores of the sockets that report no thread count. */
  function CoresWithoutThreads(ss: seq<Topology.Socket>): int
  {
    if ss == [] then 0
    else
      var s := ss[|ss| - 1];
      CoresWithoutThreads(ss[..|ss| - 1]) + (if s.threads.None? then Topology.OrZero(s.cores) else 0)
  }

  /** The row's thread total lacks the drivers' fallback: it falls short of the
      drivers' total by exactly the cores of the sockets with no thread count. */
  lemma {:induction false} RowThreadsGap(ss: seq<Topology.Socket>)
    ensures Topology.Total(ss, Topology.ThreadsKey) == RowTotal(ss, Topology.ThreadsKey) + CoresWithoutThreads(ss)
  {
    if ss != [] {
      RowThreadsGap(ss[..|ss| - 1]);
    }
  }

  /** Non-negative socket counts give non-negative row totals. */
  lemma {:induction false} RowTotalNonNegative(ss: seq<Topology.Socket>, key: Topology.CountKey)
    requires Topology.CountsNonNegative(ss)
    ensures RowTotal(ss, key) >= 0
  {
    if ss != [] {
      RowTotalNonNegative(ss[..|ss| - 1], key);
    }
  }

  // ------------------------------------------------------------------ images

  /** A listing entry the image index considers: a file whose lower-cased name ends in ".png". */
  predicate IsPng(e: Entry)
  {
    e.kind == "file" && EndsWith(Lower(e.name), ".png")
  }

  predicate PngNamed(e: Entry, key: string)
  {
    IsPng(e) && Lower(e.name) == key
  }

  /** `by_lower`: lower-cased PNG name -> download URL; later entries overwrite earlier ones. */
  function PngIndex(es: seq<Entry>): map<string, Option<string>>
  {
    if es == [] then map[]
    else
      var e := es[|es| - 1];
      var m := PngIndex(es[..|es| - 1]);
      if IsPng(e) then m[Lower(e.name) := e.downloadUrl] else m
  }

  /** Entry `i` is the last PNG file whose lowercased name is `key`. */
  predicate LastPngNamed(es: seq<Entry>, key: string, i: int)
  {
    0 <= i < |es| && PngNamed(es[i], key) && forall j :: i < j < |es| ==> !PngNamed(es[j], key)
  }

  /** A name is indexed exactly when some PNG file has it (ignoring case), and
      it maps to the URL of the LAST such entry. */
  lemma {:induction false} PngIndexLookup(es: seq<Entry>, key: string)
    ensures key in PngIndex(es) <==> exists i :: 0 <= i < |es| && PngNamed(es[i], key)
    ensures key in PngIndex(es) ==>
              exists i :: LastPngNamed(es, key, i) && PngIndex(es)[key] == es[i].downloadUrl
  {
    if es != [] {
      var n := |es| - 1;
      var front := es[..n];
      PngIndexLookup(front, key);
      if PngNamed(es[n], key) {
        assert LastPngNamed(es, key, n);
      } else {
        assert key in PngIndex(es) <==> key in PngIndex(front);
        assert key in PngIndex(front) ==> PngIndex(es)[key] == PngIndex(front)[key];
        if key in PngIndex(front) {
          var i :| LastPngNamed(front, key, i) && PngIndex(front)[key] == front[i].downloadUrl;
          assert front[i] == es[i];
          assert forall j :: i < j < n ==> front[j] == es[j];
          assert LastPngNamed(es, key, i);
        }
        if exists i :: 0 <= i < |es| && PngNamed(es[i], key) {
          var i :| 0 <= i < |es| && PngNamed(es[i], key);
          assert front[i] == es[i];
        }
      }
    }
  }

  /** `by_lower.get(name, "")`. */
  function Slot(index: map<string, Option<string>>, name: string): Option<string>
  {
    if name in index then index[name] else Some("")
  }

  /** The four image slots, in the order of `PlotNames`. */
  function ImageSlots(index: map<string, Option<string>>): seq<Option<string>>
  {
    seq(|PlotNames|, i requires 0 <= i < |PlotNames| => Slot(index, PlotNames[i]))
  }

  /** Slot `i` holds the URL of the last PNG file whose name matches plot `i`
      ignoring case, or "" when none does; no slot is dropped or moved. */
  lemma ImageSlotContents(es: seq<Entry>, i: int)
    requires 0 <= i < |PlotNames|
    ensures |ImageSlots(PngIndex(es))| == 4
    ensures (forall k :: 0 <= k < |es| ==> !PngNamed(es[k], PlotNames[i])) ==>
              ImageSlots(PngIndex(es))[i] == Some("")
    ensures forall k :: 0 <= k < |es| && PngNamed(es[k], PlotNames[i])
                        && (forall j :: k < j < |es| ==> !PngNamed(es[j], PlotNames[i]))
                        ==> ImageSlots(PngIndex(es))[i] == es[k].downloadUrl
  {
    var key := PlotNames[i];
    PngIndexLookup(es, key);
    forall k | 0 <= k < |es| && PngNamed(es[k], key) && (forall j :: k < j < |es| ==> !PngNamed(es[j], key))
      ensures ImageSlots(PngIndex(es))[i] == es[k].downloadUrl
    {
      var i' :| LastPngNamed(es, key, i') && PngIndex(es)[key] == es[i'].downloadUrl;
    }
  }

  // ----------------------------------------------------------------- summary

  /** `summarize(manifest, run)`, with the listing of `<run path>/energy` given. */
  function Summary(m: Manifest, run: RunRef, energy: seq<Entry>): (row: Row)
    ensures |row.images| == |PlotNames|
    ensures row.cpuLabel != ""
    ensures row.htBadge != "" <==> m.threadingEnabled == FlagBool(false)
    ensures run.user != "" ==> row.user != "" && row.userDisplay != ""
    ensures m.metrics.None? ==> row.avgPowerW.None? && row.peakPowerW.None? && row.energyWh.None?
    ensures m.node.Absent? ==> row.node == Some("")
    ensures m.created.Absent? ==> row.created == Some("")
    ensures m.zenodoHtml.Absent? ==> row.zenodo == Some("")
    ensures row.node.None? <==> m.node.Null?
    ensures row.created.None? <==> m.created.Null?
    ensures row.zenodo.None? <==> m.zenodoHtml.Null?
    ensures m.author.None? ==> row.affiliationName == Some("") && row.affiliationRor == Some("")
    ensures m.author.Some? && m.author.value.affiliationName.Absent? ==> row.affiliationName == Some("")
    ensures m.author.Some? && m.author.value.affiliationRor.Absent? ==> row.affiliationRor == Some("")
    ensures m.author.Some? ==> (row.affiliationName.None? <==> m.author.value.affiliationName.Null?)
    ensures m.author.Some? ==> (row.affiliationRor.None? <==> m.author.value.affiliationRor.Null?)
  {
    var author := m.author.GetOr(NoAuthor);
    var metrics := m.metrics.GetOr(NoMetrics);
    var ss := SocketList(m.processor);
    Row(
      id := FirstNonEmpty([m.runId], LastSegment(run.path)),
      user := HandleOf(m, run),
      userDisplay := DisplayNameOf(m, run),
      affiliationName := CopyField(author.affiliationName),
      affiliationRor := CopyField(author.affiliationRor),
      cpuLabel := CpuLabel(m.processor),
      cores := RowTotal(ss, Topology.CoresKey),
      threads := RowTotal(ss, Topology.ThreadsKey),
      htBadge := HtBadge(m.threadingEnabled),
      avgPowerW := metrics.avgPowerW,
      peakPowerW := metrics.peakPowerW,
      energyWh := metrics.energyWh,
      created := CopyField(m.created),
      zenodo := CopyField(m.zenodoHtml),
      images := ImageSlots(PngIndex(energy)),
      node := CopyField(m.node))
  }

  /** The loop of `summarize` that sums the socket counts. */
  method SocketTotals(procs: seq<Topology.Socket>) returns (totalCores: int, totalThreads: int)
    ensures totalCores == RowTotal(procs, Topology.CoresKey)
    ensures totalThreads == RowTotal(procs, Topology.ThreadsKey)
  {
    totalCores, totalThreads := 0, 0;
    for i := 0 to |procs|
      invariant totalCores == RowTotal(procs[..i], Topology.CoresKey)
      invariant totalThreads == RowTotal(procs[..i], Topology.ThreadsKey)
    {
      assert procs[..i + 1][..i] == procs[..i];
      totalCores := totalCores + Topology.OrZero(procs[i].cores);
      totalThreads := totalThreads + Topology.OrZero(procs[i].threads);
    }
    assert procs[..|procs|] == procs;
  }

  /** The loop of `summarize` that fills `by_lower` from the energy listing. */
  method IndexPngs(energy: seq<Entry>) returns (byLower: map<string, Option<string>>)
    ensures byLower == PngIndex(energy)
  {
    byLower := map[];
    for i := 0 to |energy|
      invariant byLower == PngIndex(energy[..i])
    {
      assert energy[..i + 1][..i] == energy[..i];
      var ent := energy[i];
      if ent.kind == "file" && EndsWith(Lower(ent.name), ".png") {
        byLower := byLower[Lower(ent.name) := ent.downloadUrl];
      }
    }
    assert energy[..|energy|] == energy;
  }

  /** The loop of `summarize` that appends one image per wanted plot name. */
  method FillImages(byLower: map<string, Option<string>>) returns (images: seq<Option<string>>)
    ensures images == ImageSlots(byLower)
  {
    images := [];
    for i := 0 to |PlotNames|
      invariant images == ImageSlots(byLower)[..i]
    {
      var name := PlotNames[i];
      images := images + [if name in byLower then byLower[name] else Some("")];
    }
  }

  /** `summarize`, with its loops in the three methods above. */
  method Summarize(m: Manifest, run: RunRef, energy: seq<Entry>) returns (row: Row)
    ensures row == Summary(m, run, energy)
  {
    var author := m.author.GetOr(NoAuthor);
    var userDisplay := DisplayNameOf(m, run);
    var handle := HandleOf(m, run);

    var cpuLabel := "unknown";
    var totalCores, totalThreads := 0, 0;
    if m.processor.Listed? && m.processor.sockets != [] {
      var procs := m.processor.sockets;
      var first := procs[0];
      cpuLabel := Strip(first.vendor.GetOr("") + " " + first.model.GetOr(""));
      if cpuLabel == "" {
        cpuLabel := "unknown";
      }
      totalCores, totalThreads := SocketTotals(procs);
    }

    var htBadge := "";
    if m.threadingEnabled.FlagBool? && !m.threadingEnabled.value {
      htBadge := " (HT off)";
    }

    var metrics := m.metrics.GetOr(NoMetrics);
    var byLower := IndexPngs(energy);
    var images := FillImages(byLower);

    row := Row(
      id := FirstNonEmpty([m.runId], LastSegment(run.path)),
      user := handle,
      userDisplay := userDisplay,
      affiliationName := CopyField(author.affiliationName),
      affiliationRor := CopyField(author.affiliationRor),
      cpuLabel := cpuLabel,
      cores := totalCores,
      threads := totalThreads,
      htBadge := htBadge,
      avgPowerW := metrics.avgPowerW,
      peakPowerW := metrics.peakPowerW,
      energyWh := metrics.energyWh,
      created := CopyField(m.created),
      zenodo := CopyField(m.zenodoHtml),
      images := images,
      node := CopyField(m.node));
  }

  /** The three metrics are copied as they are; a missing one stays missing. */
  lemma MetricsPassThrough(m: Manifest, run: RunRef, energy: seq<Entry>)
    requires m.metrics.Some?
    ensures Summary(m, run, energy).avgPowerW == m.metrics.value.avgPowerW
    ensures Summary(m, run, energy).peakPowerW == m.metrics.value.peakPowerW
    ensures Summary(m, run, energy).energyWh == m.metrics.value.energyWh
  {
  }

  /** A row's id is the manifest's `run_id` when that is non-empty, and
      otherwise the name of the run folder the crawl found it in. */
  lemma RowIdOfCrawledRun(root: string, users: seq<Entry>, tree: Listings, i: int, j: int, r: RunRef,
                          m: Manifest, energy: seq<Entry>)
    requires RunAt(root, users, tree, i, j, r)
    requires '/' !in ListingAt(tree, ChildPath(root, users[i].name))[j].name
    ensures Truthy(m.runId) ==> Summary(m, r, energy).id == m.runId.value
    ensures !Truthy(m.runId) ==> Summary(m, r, energy).id == ListingAt(tree, ChildPath(root, users[i].name))[j].name
  {
    CrawledRunLastSegment(root, users, tree, i, j, r);
  }

  // ------------------------------------------------------------ whole index

  /** Parsed manifests by path. A path that is not a key stands for a manifest
      that reads as an empty object (missing, no download URL, not JSON, or `{}`). */
  type Manifests = map<string, Manifest>

  function ManifestPath(run: RunRef): string
  {
    ChildPath(run.path, ManifestFile)
  }

  function EnergyPath(run: RunRef): string
  {
    ChildPath(run.path, EnergyDir)
  }

  predicate HasManifest(docs: Manifests, run: RunRef)
  {
    ManifestPath(run) in docs
  }

  function RowOf(run: RunRef, tree: Listings, docs: Manifests): Row
    requires HasManifest(docs, run)
  {
    Summary(docs[ManifestPath(run)], run, ListingAt(tree, EnergyPath(run)))
  }

  /** What one run adds to the output: its row, or nothing when its manifest is empty. */
  function RowsOf(r: RunRef, tree: Listings, docs: Manifests): seq<Row>
  {
    if HasManifest(docs, r) then [RowOf(r, tree, docs)] else []
  }

  function RowsFor(tree: Listings, docs: Manifests): RunRef -> seq<Row>
  {
    r => RowsOf(r, tree, docs)
  }

  /** The rows of `main`'s loop: one per run with a non-empty manifest, in crawl order. */
  function IndexRows(runs: seq<RunRef>, tree: Listings, docs: Manifests): seq<Row>
  {
    Collect(runs, RowsFor(tree, docs))
  }

  /** `main`: crawl `submission/`, skip runs whose manifest is empty, summarise the rest. */
  method BuildIndex(tree: Listings, docs: Manifests) returns (rows: seq<Row>)
    ensures rows == IndexRows(Crawl(SubmissionRoot, ListingAt(tree, SubmissionRoot), tree), tree, docs)
  {
    var runs := ListRuns(SubmissionRoot, tree);
    rows := [];
    for i := 0 to |runs|
      invariant rows == IndexRows(runs[..i], tree, docs)
    {
      var r := runs[i];
      assert runs[..i + 1] == runs[..i] + [r];
      CollectSnoc(runs[..i], r, RowsFor(tree, docs));
      var path := ManifestPath(r);
      if path !in docs {
        continue;
      }
      var row := Summarize(docs[path], r, ListingAt(tree, EnergyPath(r)));
      rows := rows + [row];
    }
    assert runs[..|runs|] == runs;
  }

  /** There are never more rows than runs, and exactly as many when every run has a manifest. */
  lemma {:induction false} IndexRowsLength(runs: seq<RunRef>, tree: Listings, docs: Manifests)
    ensures |IndexRows(runs, tree, docs)| <= |runs|
    ensures (forall k :: 0 <= k < |runs| ==> HasManifest(docs, runs[k])) ==> |IndexRows(runs, tree, docs)| == |runs|
  {
    if runs != [] {
      IndexRowsLength(runs[..|runs| - 1], tree, docs);
    }
  }

  /** Each run is summarised on its own and in order: the rows of a
      concatenation are the concatenation of the rows. */
  lemma IndexRowsAppend(a: seq<RunRef>, b: seq<RunRef>, tree: Listings, docs: Manifests)
    ensures IndexRows(a + b, tree, docs) == IndexRows(a, tree, docs) + IndexRows(b, tree, docs)
  {
    CollectAppend(a, b, RowsFor(tree, docs));
  }

  /** Every row is the summary of a run that has a manifest. */
  lemma IndexRowsFromRuns(runs: seq<RunRef>, tree: Listings, docs: Manifests, row: Row)
    requires row in IndexRows(runs, tree, docs)
    ensures exists k :: 0 <= k < |runs| && HasManifest(docs, runs[k]) && row == RowOf(runs[k], tree, docs)
  {
    CollectMembership(runs, RowsFor(tree, docs), row);
    var k :| ContributedBy(runs, RowsFor(tree, docs), k, row);
    assert row in RowsOf(runs[k], tree, docs);
  }

  /** Conversely, every run that has a manifest is summarised, in its place:
      its row sits between the rows of the runs before it and those after it. */
  lemma IndexRowsKeepRun(runs: seq<RunRef>, tree: Listings, docs: Manifests, k: int)
    requires 0 <= k < |runs| && HasManifest(docs, runs[k])
    ensures IndexRows(runs, tree, docs)
         == IndexRows(runs[..k], tree, docs) + [RowOf(runs[k], tree, docs)] + IndexRows(runs[k + 1..], tree, docs)
    ensures RowOf(runs[k], tree, docs) in IndexRows(runs, tree, docs)
  {
    var f := RowsFor(tree, docs);
    assert runs == runs[..k] + [runs[k]] + runs[k + 1..];
    CollectAppend(runs[..k] + [runs[k]], runs[k + 1..], f);
    CollectSnoc(runs[..k], runs[k], f);
  }
}
