/** The `aptly` binary behind the gateway, as an abstract store: the
    snapshots with their descriptions and merge sources, the mirrors, the
    publishing points, and the log of every command issued. Each method is
    one command: it appends that command to the log and answers with an exit
    status and an output text, as a process would. */
module Tool {
  import opened Wrappers
  import opened Text
  import opened Protocol

  /** What a snapshot holds, as far as `snapshot diff` can tell: a mirror at
      some fetched version, a local repository, or a merge of other contents. */
  datatype Content = Fetched(mirror: string, version: nat) | Local(repo: string) | Combined(parts: seq<Content>)

  datatype Snapshot = Snapshot(description: string, sources: seq<string>, content: Content)

  /** The exit status and the combined output of one command. */
  datatype Response = Response(status: int, output: string)

  /** What a shell script does: exit status, standard output, and standard
      output and error interleaved. */
  datatype ScriptOutcome = ScriptOutcome(status: int, stdout: string, mixed: string)

  /** A publishing point: its `prefix distribution` key and the snapshots it
      serves. */
  datatype Point = Point(key: string, snapshots: seq<string>)

  datatype Db = Db(
    names: seq<string>,                 // snapshots in listing order
    snapshots: map<string, Snapshot>,
    mirrorNames: seq<string>,           // mirrors in listing order
    mirrors: map<string, nat>,          // fetched version of each mirror
    points: seq<Point>)

  predicate NoDup(s: seq<string>) {
    forall i, j :: 0 <= i < j < |s| ==> s[i] != s[j]
  }

  /** `s` without `x`. */
  function Remove(s: seq<string>, x: string): (r: seq<string>)
    ensures forall y :: y in r <==> y in s && y != x
    ensures NoDup(s) ==> NoDup(r)
  {
    if s == [] then []
    else
      var rest := Remove(s[1..], x);
      assert forall y :: y in s <==> y == s[0] || y in s[1..];
      if s[0] == x then rest
      else
        assert NoDup(s) ==> s[0] !in s[1..];
        [s[0]] + rest
  }

  /** A name the protocol texts can carry: no line break inside, no trailing
      carriage return, and no `", "` (the merge description separator). */
  predicate Nameable(n: string) {
    OneLine(n) && IndexOf(n, ", ").None?
  }

  function PointKeys(points: seq<Point>): (r: seq<string>)
    ensures |r| == |points| && forall k :: 0 <= k < |r| ==> r[k] == points[k].key
  {
    if points == [] then [] else [points[0].key] + PointKeys(points[1..])
  }

  function PointIndex(points: seq<Point>, key: string): (r: Option<nat>)
    ensures r.Some? ==> r.value < |points| && points[r.value].key == key
    ensures r.Some? ==> forall k :: 0 <= k < r.value ==> points[k].key != key
    ensures r.None? ==> forall k :: 0 <= k < |points| ==> points[k].key != key
  {
    if points == [] then None
    else if points[0].key == key then Some(0)
    else match PointIndex(points[1..], key)
      case None => None
      case Some(k) => Some(k + 1)
  }

  /** The creation rank of `n` (0 for a name never created). */
  function RankIn(rank: map<string, nat>, n: string): nat {
    if n in rank then rank[n] else 0
  }

  /** Some publishing point serves `n`. */
  predicate Published(points: seq<Point>, n: string) {
    exists k :: 0 <= k < |points| && n in points[k].snapshots
  }

  /** Some snapshot was merged from `n`. */
  predicate UsedAsSource(snapshots: map<string, Snapshot>, n: string) {
    exists m :: m in snapshots && n in snapshots[m].sources
  }

  function MirrorDescription(mirror: string): string {
    "Snapshot from mirror [" + mirror + "]"
  }

  function RepoDescription(repo: string): string {
    "Snapshot from local repo [" + repo + "]"
  }

  lemma PlainDescription(lead: string, name: string)
    requires OneLine(lead) && OneLine(name) && |lead| > 0 && lead[0] == 'S'
    ensures OneLine(lead + name + "]") && Lineage(lead + name + "]") == []
  {
    OneLineConcat(lead, name);
    OneLineConcat(lead + name, "]");
    var d := lead + name + "]";
    assert d[0] == 'S';
    assert MergedLabel[0] == 'M';
    assert !StartsWith(d, MergedLabel);
  }

  function ContentsOf(snapshots: map<string, Snapshot>, names: seq<string>): seq<Content>
    requires forall k :: 0 <= k < |names| ==> names[k] in snapshots
  {
    seq(|names|, k requires 0 <= k < |names| => snapshots[names[k]].content)
  }

  /** The snapshot table: each snapshot listed once, named so that it can
      be read back, its lineage recorded in its description, and ranked
      above its sources. */
  ghost predicate SnapshotsValid(names: seq<string>, snapshots: map<string, Snapshot>, rank: map<string, nat>, top: nat) {
    NoDup(names) && (forall n :: n in snapshots <==> n in names)
    && (forall n :: n in snapshots ==>
          Nameable(n) && OneLine(snapshots[n].description)
          && Lineage(snapshots[n].description) == snapshots[n].sources
          && n in rank && rank[n] < top)
    && (forall n, k :: n in snapshots && 0 <= k < |snapshots[n].sources| ==>
          snapshots[n].sources[k] in snapshots
          && snapshots[n].sources[k] in rank && rank[snapshots[n].sources[k]] < rank[n])
  }

  ghost predicate MirrorsValid(mirrorNames: seq<string>, mirrors: map<string, nat>) {
    NoDup(mirrorNames) && (forall m :: m in mirrors <==> m in mirrorNames)
    && (forall m :: m in mirrors ==> OneLine(m))
  }

  ghost predicate PointsValid(points: seq<Point>) {
    forall k :: 0 <= k < |points| ==> OneLine(points[k].key)
  }

  lemma PointsAfterAppend(points: seq<Point>, p: Point)
    requires PointsValid(points) && OneLine(p.key)
    ensures PointsValid(points + [p])
  {
    var points' := points + [p];
    forall k | 0 <= k < |points'| ensures OneLine(points'[k].key) {
      if k < |points| {
        assert points'[k] == points[k];
      }
    }
  }

  lemma PointsAfterSwitch(points: seq<Point>, i: nat, p: Point)
    requires PointsValid(points) && i < |points| && points[i].key == p.key
    ensures PointsValid(points[i := p])
  {
  }

  /** Dropping a snapshot that no other snapshot was merged from keeps the
      table valid. */
  lemma SnapshotsAfterDrop(names: seq<string>, snapshots: map<string, Snapshot>, rank: map<string, nat>, top: nat, name: string)
    requires SnapshotsValid(names, snapshots, rank, top)
    requires name in snapshots && !UsedAsSource(snapshots, name)
    ensures SnapshotsValid(Remove(names, name), snapshots - {name}, rank, top)
  {
    var kept := snapshots - {name};
    forall n, k | n in kept && 0 <= k < |kept[n].sources|
      ensures kept[n].sources[k] in kept
    {
      assert kept[n] == snapshots[n];
      assert snapshots[n].sources[k] != name;
    }
  }

  /** Adding a snapshot under a new name, ranked above every other, whose
      sources exist, keeps the table valid. */
  lemma SnapshotsAfterAdd(names: seq<string>, snapshots: map<string, Snapshot>, rank: map<string, nat>, top: nat,
                          name: string, snap: Snapshot)
    requires SnapshotsValid(names, snapshots, rank, top)
    requires name !in snapshots && Nameable(name)
    requires OneLine(snap.description) && Lineage(snap.description) == snap.sources
    requires forall k :: 0 <= k < |snap.sources| ==> snap.sources[k] in snapshots
    ensures SnapshotsValid(names + [name], snapshots[name := snap], rank[name := top], top + 1)
  {
    NamesAfterAdd(names, snapshots, name);
    EntriesAfterAdd(snapshots, rank, top, name, snap);
    SourcesAfterAdd(snapshots, rank, top, name, snap);
  }

  lemma EntriesAfterAdd(snapshots: map<string, Snapshot>, rank: map<string, nat>, top: nat, name: string, snap: Snapshot)
    requires forall n :: n in snapshots ==>
      Nameable(n) && OneLine(snapshots[n].description)
      && Lineage(snapshots[n].description) == snapshots[n].sources
      && n in rank && rank[n] < top
    requires Nameable(name) && OneLine(snap.description) && Lineage(snap.description) == snap.sources
    ensures var snapshots', rank' := snapshots[name := snap], rank[name := top];
      forall n :: n in snapshots' ==>
        Nameable(n) && OneLine(snapshots'[n].description)
        && Lineage(snapshots'[n].description) == snapshots'[n].sources
        && n in rank' && rank'[n] < top + 1
  {
    var snapshots', rank' := snapshots[name := snap], rank[name := top];
    forall n | n in snapshots'
      ensures Nameable(n) && OneLine(snapshots'[n].description)
              && Lineage(snapshots'[n].description) == snapshots'[n].sources
              && n in rank' && rank'[n] < top + 1
    {
      if n != name {
        assert snapshots'[n] == snapshots[n] && rank'[n] == rank[n];
      }
    }
  }

  lemma SourcesAfterAdd(snapshots: map<string, Snapshot>, rank: map<string, nat>, top: nat, name: string, snap: Snapshot)
    requires forall n :: n in snapshots ==> n in rank && rank[n] < top
    requires forall n, k :: n in snapshots && 0 <= k < |snapshots[n].sources| ==>
      snapshots[n].sources[k] in snapshots && snapshots[n].sources[k] in rank && rank[snapshots[n].sources[k]] < rank[n]
    requires name !in snapshots
    requires forall k :: 0 <= k < |snap.sources| ==> snap.sources[k] in snapshots
    ensures var snapshots', rank' := snapshots[name := snap], rank[name := top];
      forall n, k :: n in snapshots' && 0 <= k < |snapshots'[n].sources| ==>
        snapshots'[n].sources[k] in snapshots' && snapshots'[n].sources[k] in rank'
        && rank'[snapshots'[n].sources[k]] < rank'[n]
  {
    var snapshots', rank' := snapshots[name := snap], rank[name := top];
    forall n, k | n in snapshots' && 0 <= k < |snapshots'[n].sources|
      ensures snapshots'[n].sources[k] in snapshots' && snapshots'[n].sources[k] in rank'
              && rank'[snapshots'[n].sources[k]] < rank'[n]
    {
      if n == name {
        assert snap.sources[k] in snapshots && snap.sources[k] != name;
      } else {
        assert snapshots'[n] == snapshots[n];
        assert snapshots[n].sources[k] in snapshots && snapshots[n].sources[k] != name;
      }
    }
  }

  lemma NamesAfterAdd(names: seq<string>, snapshots: map<string, Snapshot>, name: string)
    requires NoDup(names) && (forall n :: n in snapshots <==> n in names) && name !in snapshots
    ensures NoDup(names + [name])
    ensures forall n :: n in names + [name] <==> n in snapshots || n == name
  {
    var names' := names + [name];
    forall i, j | 0 <= i < j < |names'| ensures names'[i] != names'[j] {
      assert names'[i] == names[i];
      if j < |names| {
        assert names'[j] == names[j];
      }
    }
  }

  class Store {
    var db: Db
    var log: seq<Invocation>
    /** The version `mirror update` fetches for each mirror. */
    const upstream: string -> nat
    /** The local repositories. */
    const repos: set<string>
    /** What each shell script does. */
    const scripts: string -> ScriptOutcome
    /** Whether this aptly accepts `-force-components`. */
    const forceComponents: bool
    /** Creation order: every merge ranks above its sources. */
    ghost var rank: map<string, nat>
    ghost var top: nat

    ghost predicate Valid()
      reads this
    {
      SnapshotsValid(db.names, db.snapshots, rank, top)
      && MirrorsValid(db.mirrorNames, db.mirrors)
      && PointsValid(db.points)
      && (forall r :: r in repos ==> OneLine(r))
    }

    constructor (upstream: string -> nat, repos: set<string>, scripts: string -> ScriptOutcome, forceComponents: bool)
      requires forall r :: r in repos ==> OneLine(r)
      ensures Valid()
      ensures db == Db([], map[], [], map[], []) && log == []
      ensures this.upstream == upstream && this.repos == repos && this.scripts == scripts
      ensures this.forceComponents == forceComponents
    {
      db := Db([], map[], [], map[], []);
      log := [];
      this.upstream := upstream;
      this.repos := repos;
      this.scripts := scripts;
      this.forceComponents := forceComponents;
      rank := map[];
      top := 1;
    }

    // ----- queries -----

    method ListSnapshots(x: string) returns (resp: Response)
      requires Valid()
      modifies this
      ensures Valid() && db == old(db) && rank == old(rank) && top == old(top)
      ensures log == old(log) + [Exec(ListSnapshotsArgv(x))]
      ensures resp == Response(0, Listing(db.names))
    {
      log := log + [Exec(ListSnapshotsArgv(x))];
      resp := Response(0, Listing(db.names));
    }

    method ListMirrors(x: string) returns (resp: Response)
      requires Valid()
      modifies this
      ensures Valid() && db == old(db) && rank == old(rank) && top == old(top)
      ensures log == old(log) + [Exec(ListMirrorsArgv(x))]
      ensures resp == Response(0, Listing(db.mirrorNames))
    {
      log := log + [Exec(ListMirrorsArgv(x))];
      resp := Response(0, Listing(db.mirrorNames));
    }

    method ListPublished(x: string) returns (resp: Response)
      requires Valid()
      modifies this
      ensures Valid() && db == old(db) && rank == old(rank) && top == old(top)
      ensures log == old(log) + [Exec(ListPublishArgv(x))]
      ensures resp == Response(0, Listing(PointKeys(db.points)))
    {
      log := log + [Exec(ListPublishArgv(x))];
      resp := Response(0, Listing(PointKeys(db.points)));
    }

    /** `snapshot show`: the name and the description, one per line. */
    method Show(x: string, name: string) returns (resp: Response)
      requires Valid()
      modifies this
      ensures Valid() && db == old(db) && rank == old(rank) && top == old(top)
      ensures log == old(log) + [Exec(ShowArgv(x, name))]
      ensures resp.status == 0 <==> name in db.snapshots
      ensures name in db.snapshots ==> resp.output == ShowOutput(name, db.snapshots[name].description)
    {
      log := log + [Exec(ShowArgv(x, name))];
      if name in db.snapshots {
        resp := Response(0, ShowOutput(name, db.snapshots[name].description));
      } else {
        resp := Response(1, "ERROR: unable to show: snapshot with name " + name + " not found\n");
      }
    }

    /** `snapshot diff`: says the snapshots are identical when their
        contents are equal, and lists nothing otherwise. */
    method Diff(x: string, a: string, b: string) returns (resp: Response)
      requires Valid()
      modifies this
      ensures Valid() && db == old(db) && rank == old(rank) && top == old(top)
      ensures log == old(log) + [Exec(DiffArgv(x, a, b))]
      ensures resp.status == 0 <==> a in db.snapshots && b in db.snapshots
      ensures resp.status == 0 ==>
        (Contains(resp.output, IdenticalText) <==> db.snapshots[a].content == db.snapshots[b].content)
    {
      log := log + [Exec(DiffArgv(x, a, b))];
      if a !in db.snapshots || b !in db.snapshots {
        resp := Response(1, "ERROR: unable to load snapshot\n");
      } else if db.snapshots[a].content == db.snapshots[b].content {
        resp := Response(0, IdenticalText + "\n");
        assert OccursAt(resp.output, IdenticalText, 0);
      } else {
        resp := Response(0, "");
      }
    }

    /** `version`, reduced to the one thing the gateway asks of it. */
    method SupportsForceComponents(x: string) returns (supported: bool)
      requires Valid()
      modifies this
      ensures Valid() && db == old(db) && rank == old(rank) && top == old(top)
      ensures log == old(log) + [Exec([x, "version"])]
      ensures supported == forceComponents
    {
      log := log + [Exec([x, "version"])];
      supported := forceComponents;
    }

    /** A shell script. Its outcome is the given function of its text; the
        model leaves the database as it was (scripts that call aptly are not
        modelled). */
    method RunScript(text: string) returns (outcome: ScriptOutcome)
      requires Valid()
      modifies this
      ensures Valid() && db == old(db) && rank == old(rank) && top == old(top)
      ensures log == old(log) + [Invocation.Shell(text)]
      ensures outcome == scripts(text)
    {
      log := log + [Invocation.Shell(text)];
      outcome := scripts(text);
    }

    method Cleanup(x: string) returns (resp: Response)
      requires Valid()
      modifies this
      ensures Valid() && db == old(db) && rank == old(rank) && top == old(top)
      ensures log == old(log) + [Exec(CleanupArgv(x))]
      ensures resp.status == 0
    {
      log := log + [Exec(CleanupArgv(x))];
      resp := Response(0, "");
    }

    // ----- mirrors -----

    /** `mirror update`: the mirror fetches its upstream version. */
    method UpdateMirror(x: string, mirror: string) returns (resp: Response)
      requires Valid()
      modifies this
      ensures Valid() && rank == old(rank) && top == old(top)
      ensures log == old(log) + [Exec(UpdateArgv(x, mirror))]
      ensures resp.status == 0 <==> mirror in old(db.mirrors)
      ensures db == if resp.status == 0 then old(db).(mirrors := old(db.mirrors)[mirror := upstream(mirror)]) else old(db)
    {
      log := log + [Exec(UpdateArgv(x, mirror))];
      if mirror in db.mirrors {
        db := db.(mirrors := db.mirrors[mirror := upstream(mirror)]);
        resp := Response(0, "");
      } else {
        resp := Response(1, "ERROR: unable to update: mirror with name " + mirror + " not found\n");
      }
    }

    /** `mirror create`; the name is given alongside the argument vector. */
    method CreateMirror(argv: seq<string>, name: string) returns (resp: Response)
      requires Valid()
      modifies this
      ensures Valid() && rank == old(rank) && top == old(top)
      ensures log == old(log) + [Exec(argv)]
      ensures resp.status == 0 <==> name !in old(db.mirrors) && OneLine(name)
      ensures db == if resp.status == 0
        then old(db).(mirrorNames := old(db.mirrorNames) + [name], mirrors := old(db.mirrors)[name := 0])
        else old(db)
    {
      log := log + [Exec(argv)];
      if name in db.mirrors || !OneLine(name) {
        resp := Response(1, "ERROR: unable to create mirror " + name + "\n");
      } else {
        db := db.(mirrorNames := db.mirrorNames + [name], mirrors := db.mirrors[name := 0]);
        resp := Response(0, "");
      }
    }

    // ----- snapshots -----

    /** Adds a snapshot under a fresh name, ranked above everything so far. */
    method Add(name: string, snap: Snapshot)
      requires Valid() && name !in db.snapshots && Nameable(name)
      requires OneLine(snap.description) && Lineage(snap.description) == snap.sources
      requires forall k :: 0 <= k < |snap.sources| ==> snap.sources[k] in db.snapshots
      modifies this
      ensures Valid() && log == old(log)
      ensures db == old(db).(names := old(db.names) + [name], snapshots := old(db.snapshots)[name := snap])
      ensures forall n :: n in old(db.snapshots) ==> RankIn(rank, n) == RankIn(old(rank), n)
    {
      SnapshotsAfterAdd(db.names, db.snapshots, rank, top, name, snap);
      db := db.(names := db.names + [name], snapshots := db.snapshots[name := snap]);
      rank := rank[name := top];
      top := top + 1;
    }

    /** `snapshot create ... from mirror`. */
    method CreateFromMirror(x: string, name: string, mirror: string) returns (resp: Response)
      requires Valid()
      modifies this
      ensures Valid()
      ensures log == old(log) + [Exec(FromMirrorArgv(x, name, mirror))]
      ensures resp.status == 0 <==> mirror in old(db.mirrors) && name !in old(db.snapshots) && Nameable(name)
      ensures resp.status == 0 ==> db == old(db).(names := old(db.names) + [name],
        snapshots := old(db.snapshots)[name := Snapshot(MirrorDescription(mirror), [], Fetched(mirror, old(db.mirrors)[mirror]))])
      ensures resp.status != 0 ==> db == old(db)
      ensures forall n :: n in old(db.snapshots) ==> RankIn(rank, n) == RankIn(old(rank), n)
    {
      log := log + [Exec(FromMirrorArgv(x, name, mirror))];
      if mirror !in db.mirrors || name in db.snapshots || !Nameable(name) {
        resp := Response(1, "ERROR: unable to create snapshot " + name + "\n");
      } else {
        PlainDescription("Snapshot from mirror [", mirror);
        Add(name, Snapshot(MirrorDescription(mirror), [], Fetched(mirror, db.mirrors[mirror])));
        resp := Response(0, "");
      }
    }

    /** `snapshot create ... from repo`. */
    method CreateFromRepo(x: string, name: string, repo: string) returns (resp: Response)
      requires Valid()
      modifies this
      ensures Valid()
      ensures log == old(log) + [Exec(FromRepoArgv(x, name, repo))]
      ensures resp.status == 0 <==> repo in repos && name !in old(db.snapshots) && Nameable(name)
      ensures resp.status == 0 ==> db == old(db).(names := old(db.names) + [name],
        snapshots := old(db.snapshots)[name := Snapshot(RepoDescription(repo), [], Local(repo))])
      ensures resp.status != 0 ==> db == old(db)
      ensures forall n :: n in old(db.snapshots) ==> RankIn(rank, n) == RankIn(old(rank), n)
    {
      log := log + [Exec(FromRepoArgv(x, name, repo))];
      if repo !in repos || name in db.snapshots || !Nameable(name) {
        resp := Response(1, "ERROR: unable to create snapshot " + name + "\n");
      } else {
        PlainDescription("Snapshot from local repo [", repo);
        Add(name, Snapshot(RepoDescription(repo), [], Local(repo)));
        resp := Response(0, "");
      }
    }

    /** `snapshot merge`: the new snapshot records its sources in its
        description. */
    method Merge(x: string, name: string, sources: seq<string>) returns (resp: Response)
      requires Valid()
      modifies this
      ensures Valid()
      ensures log == old(log) + [Exec(MergeArgv(x, name, sources))]
      ensures resp.status == 0 <==>
        name !in old(db.snapshots) && Nameable(name) && |sources| > 0
        && forall k :: 0 <= k < |sources| ==> sources[k] in old(db.snapshots)
      ensures resp.status == 0 ==> db == old(db).(names := old(db.names) + [name],
        snapshots := old(db.snapshots)[name := Snapshot(MergeDescription(sources), sources,
                                                         Combined(ContentsOf(old(db.snapshots), sources)))])
      ensures resp.status != 0 ==> db == old(db)
      ensures forall n :: n in old(db.snapshots) ==> RankIn(rank, n) == RankIn(old(rank), n)
    {
      log := log + [Exec(MergeArgv(x, name, sources))];
      if name in db.snapshots || !Nameable(name) || |sources| == 0
         || exists k :: 0 <= k < |sources| && sources[k] !in db.snapshots {
        resp := Response(1, "ERROR: unable to merge into " + name + "\n");
      } else {
        forall k | 0 <= k < |sources| ensures OneLine(sources[k]) && !Contains(sources[k], ", ") {
          assert Nameable(sources[k]);
        }
        LineageOfMergeDescription(sources);
        MergeDescriptionOneLine(sources);
        Add(name, Snapshot(MergeDescription(sources), sources, Combined(ContentsOf(db.snapshots, sources))));
        resp := Response(0, "");
      }
    }

    /** `snapshot drop`: refused while the snapshot is published or is a
        source of another snapshot. */
    method Drop(x: string, name: string) returns (resp: Response)
      requires Valid()
      modifies this
      ensures Valid() && rank == old(rank) && top == old(top)
      ensures log == old(log) + [Exec(DropArgv(x, name))]
      ensures resp.status == 0 <==>
        name in old(db.snapshots) && !Published(old(db.points), name) && !UsedAsSource(old(db.snapshots), name)
      ensures resp.status == 0 ==> db == old(db).(names := Remove(old(db.names), name), snapshots := old(db.snapshots) - {name})
      ensures resp.status != 0 ==> db == old(db)
      ensures name in old(db.snapshots) && Published(old(db.points), name) ==>
        resp.output == PublishedText + "\n"
      ensures name in old(db.snapshots) && !Published(old(db.points), name) && UsedAsSource(old(db.snapshots), name) ==>
        resp.output == SourceText + "\n"
    {
      log := log + [Exec(DropArgv(x, name))];
      if name !in db.snapshots {
        resp := Response(1, "ERROR: unable to drop: snapshot with name " + name + " not found\n");
      } else if Published(db.points, name) {
        resp := Response(1, PublishedText + "\n");
      } else if UsedAsSource(db.snapshots, name) {
        resp := Response(1, SourceText + "\n");
      } else {
        SnapshotsAfterDrop(db.names, db.snapshots, rank, top, name);
        db := db.(names := Remove(db.names, name), snapshots := db.snapshots - {name});
        resp := Response(0, "");
      }
    }

    // ----- publishing -----

    /** `publish snapshot`: a new point serving `snapshots`. */
    method PublishNew(argv: seq<string>, key: string, snapshots: seq<string>) returns (resp: Response)
      requires Valid()
      modifies this
      ensures Valid() && rank == old(rank) && top == old(top)
      ensures log == old(log) + [Exec(argv)]
      ensures resp.status == 0 <==>
        PointIndex(old(db.points), key).None? && OneLine(key)
        && forall k :: 0 <= k < |snapshots| ==> snapshots[k] in old(db.snapshots)
      ensures db == if resp.status == 0 then old(db).(points := old(db.points) + [Point(key, snapshots)]) else old(db)
    {
      log := log + [Exec(argv)];
      var known := forall k :: 0 <= k < |snapshots| ==> snapshots[k] in db.snapshots;
      if PointIndex(db.points, key).Some? || !OneLine(key) || !known {
        resp := Response(1, "ERROR: unable to publish: prefix/distribution already used\n");
      } else {
        PointsAfterAppend(db.points, Point(key, snapshots));
        db := db.(points := db.points + [Point(key, snapshots)]);
        resp := Response(0, "");
      }
    }

    /** `publish switch`: an existing point now serves `snapshots`. */
    method PublishSwitch(argv: seq<string>, key: string, snapshots: seq<string>) returns (resp: Response)
      requires Valid()
      modifies this
      ensures Valid() && rank == old(rank) && top == old(top)
      ensures log == old(log) + [Exec(argv)]
      ensures resp.status == 0 <==>
        PointIndex(old(db.points), key).Some? && forall k :: 0 <= k < |snapshots| ==> snapshots[k] in old(db.snapshots)
      ensures db == if resp.status == 0
        then old(db).(points := old(db.points)[PointIndex(old(db.points), key).value := Point(key, snapshots)])
        else old(db)
    {
      log := log + [Exec(argv)];
      var i := PointIndex(db.points, key);
      var known := forall k :: 0 <= k < |snapshots| ==> snapshots[k] in db.snapshots;
      if i.None? || !known {
        resp := Response(1, "ERROR: unable to switch: published repo not found\n");
      } else {
        PointsAfterSwitch(db.points, i.value, Point(key, snapshots));
        db := db.(points := db.points[i.value := Point(key, snapshots)]);
        resp := Response(0, "");
      }
    }
  }
}
