/** The `Aptly` gateway class: each method issues `aptly` commands through the
    store and interprets their output. Mirror updates are memoised per
    object; new snapshots are named `prefix + separator + now`; dedup compares
    two snapshots with `snapshot diff`; dropping a snapshot also drops, where
    the tool allows it, the snapshots a merge was made from. */
module Gateway {
  import opened Wrappers
  import opened Text
  import opened Values
  import opened Protocol
  import opened Tool

  /** `run`: a non-zero exit status raises a RunError with the command and its
      output; otherwise the output is the result. */
  function Checked(argv: seq<string>, resp: Response): (r: Result<string, Error>)
    ensures r.Ok? <==> resp.status == 0
    ensures r.Err? ==> r.error == Failed(RunError(Exec(argv), resp.status, resp.output))
  {
    if resp.status != 0 then Err(Failed(RunError(Exec(argv), resp.status, resp.output))) else Ok(resp.output)
  }

  /** The mirrors `update_mirror(*ms)` updates when the mirrors in `done` have
      been updated already: each mirror at most once, in order of first
      mention. */
  function UpdatePlan(done: set<string>, ms: seq<string>): (r: seq<string>)
    ensures NoDup(r)
    ensures forall m :: m in r <==> m in ms && m !in done
    decreases |ms|
  {
    if ms == [] then []
    else if ms[0] in done then UpdatePlan(done, ms[1..])
    else
      assert forall m :: m in ms <==> m == ms[0] || m in ms[1..];
      [ms[0]] + UpdatePlan(done + {ms[0]}, ms[1..])
  }

  /** Asking again for mirrors that were all updated issues nothing. */
  lemma {:induction false} UpdatePlanRepeated(done: set<string>, ms: seq<string>, again: seq<string>)
    requires forall m :: m in again ==> m in ms
    ensures UpdatePlan(done + (set m | m in ms), again) == []
    decreases |again|
  {
    if again != [] {
      assert again[0] in ms;
      UpdatePlanRepeated(done, ms, again[1..]);
    }
  }

  /** One step of the plan: a mirror done already is skipped, any other is
      updated and counts as done from then on. */
  lemma PlanStep(done: set<string>, ms: seq<string>, i: nat)
    requires i < |ms|
    ensures ms[i] in done ==> UpdatePlan(done, ms[i..]) == UpdatePlan(done, ms[i + 1..])
    ensures ms[i] !in done ==> UpdatePlan(done, ms[i..]) == [ms[i]] + UpdatePlan(done + {ms[i]}, ms[i + 1..])
  {
    assert ms[i..][0] == ms[i] && ms[i..][1..] == ms[i + 1..];
  }

  /** The `mirror update` commands of a plan. */
  function UpdateLog(x: string, plan: seq<string>): (r: seq<Invocation>)
    ensures |r| == |plan|
  {
    if plan == [] then [] else [Exec(UpdateArgv(x, plan[0]))] + UpdateLog(x, plan[1..])
  }

  lemma UpdateLogStep(x: string, before: seq<Invocation>, m: string, rest: seq<string>)
    ensures (before + [Exec(UpdateArgv(x, m))]) + UpdateLog(x, rest) == before + UpdateLog(x, [m] + rest)
  {
    assert ([m] + rest)[1..] == rest;
  }

  /** One turn of the loop of `update_mirror` keeps the commands still to be
      issued, appended to the log, the same. */
  lemma PendingStep(x: string, ms: seq<string>, i: nat, done: set<string>, log: seq<Invocation>,
                    done': set<string>, log': seq<Invocation>)
    requires i < |ms| && done' == done + {ms[i]}
    requires ms[i] in done ==> log' == log
    requires ms[i] !in done ==> log' == log + [Exec(UpdateArgv(x, ms[i]))]
    ensures log' + UpdateLog(x, UpdatePlan(done', ms[i + 1..])) == log + UpdateLog(x, UpdatePlan(done, ms[i..]))
  {
    PlanStep(done, ms, i);
    if ms[i] in done {
      assert done' == done;
    } else {
      UpdateLogStep(x, log, ms[i], UpdatePlan(done', ms[i + 1..]));
    }
  }

  /** Every component has a snapshot; a `nil` one cannot be passed to the
      process. */
  function Resolved(components: seq<(string, Option<string>)>): (r: Option<seq<(string, string)>>)
    ensures r.Some? <==> forall k :: 0 <= k < |components| ==> components[k].1.Some?
    ensures r.Some? ==> (|r.value| == |components| &&
      forall k :: 0 <= k < |components| ==> r.value[k] == (components[k].0, components[k].1.value))
  {
    if components == [] then Some([])
    else if components[0].1.None? then None
    else match Resolved(components[1..])
      case None => None
      case Some(rest) => Some([(components[0].0, components[0].1.value)] + rest)
  }

  /** `architectures.join(',')`. */
  function JoinArchitectures(architectures: Value): (r: Result<string, Error>)
    ensures architectures.List? && JoinItems(architectures.items, ",").Some? ==> r == Ok(JoinItems(architectures.items, ",").value)
    ensures !architectures.List? ==> r.Err?
  {
    if !architectures.List? then Err(Fault("NoMethodError: undefined method `join'"))
    else match JoinItems(architectures.items, ",")
      case None => Err(Fault("to_s of a Hash is not modelled"))
      case Some(a) => Ok(a)
  }

  /** What dropping snapshots may change: some snapshots go, the rest and
      everything else stay as they were, and no published snapshot goes. */
  ghost predicate Shrunk(before: Db, after: Db) {
    after.points == before.points && after.mirrors == before.mirrors && after.mirrorNames == before.mirrorNames
    && (forall n :: n in after.snapshots ==> n in before.snapshots && after.snapshots[n] == before.snapshots[n])
    && (forall n :: n in before.snapshots && Published(before.points, n) ==> n in after.snapshots)
  }

  /** `name` is gone, or the tool refuses to drop it. */
  predicate Retained(db: Db, name: string) {
    name !in db.snapshots || Published(db.points, name) || UsedAsSource(db.snapshots, name)
  }

  /** The commands run from position `since` of the log on. */
  function RunSince(log: seq<Invocation>, since: nat): set<Invocation> {
    set j | since <= j < |log| :: log[j]
  }

  /** What was run stays run as the log grows. */
  lemma RunSinceGrows(log: seq<Invocation>, later: seq<Invocation>, since: nat)
    requires log <= later
    ensures RunSince(log, since) <= RunSince(later, since)
  {
    forall x | x in RunSince(log, since) ensures x in RunSince(later, since) {
      var j :| since <= j < |log| && log[j] == x;
      assert later[j] == x;
    }
  }

  /** What was run from a later position on was run from an earlier one on. */
  lemma RunSinceNarrows(log: seq<Invocation>, since: nat, after: nat)
    requires since <= after
    ensures RunSince(log, after) <= RunSince(log, since)
  {
  }

  /** A `publish` command. */
  predicate Publishing(x: Invocation) {
    x.Exec? && |x.argv| >= 2 && x.argv[1] == "publish"
  }

  /** Nothing was published from position `since` of the log on. */
  predicate Quiet(log: seq<Invocation>, since: nat) {
    forall j :: since <= j < |log| ==> !Publishing(log[j])
  }

  lemma QuietAppend(log: seq<Invocation>, since: nat, x: Invocation)
    requires since <= |log| && Quiet(log, since) && !Publishing(x)
    ensures Quiet(log + [x], since)
  {
  }

  lemma QuietJoin(log: seq<Invocation>, later: seq<Invocation>, since: nat)
    requires since <= |log| && log <= later && Quiet(log, since) && Quiet(later, |log|)
    ensures Quiet(later, since)
  {
  }

  /** A step that appends to the log and publishes nothing keeps the log
      quiet from `since` on, keeps what ran before it, and what it ran
      counts as run from `since` on. */
  lemma LogStep(before: seq<Invocation>, after: seq<Invocation>, since: nat)
    requires since <= |before| && before <= after && Quiet(before, since) && Quiet(after, |before|)
    ensures Quiet(after, since)
    ensures RunSince(before, since) <= RunSince(after, since)
    ensures RunSince(after, |before|) <= RunSince(after, since)
  {
    QuietJoin(before, after, since);
    RunSinceGrows(before, after, since);
    RunSinceNarrows(after, since, |before|);
  }

  /** Showing and dropping snapshots publish nothing. */
  lemma SnapshotCommandsQuiet(x: string, name: string)
    ensures !Publishing(Exec(ShowArgv(x, name))) && !Publishing(Exec(DropArgv(x, name)))
  {
    assert ShowArgv(x, name)[1] == "snapshot" && DropArgv(x, name)[1] == "snapshot";
  }

  /** The point `key` serves exactly `names`. */
  predicate Serves(points: seq<Point>, key: string, names: seq<string>) {
    var i := PointIndex(points, key);
    i.Some? && points[i.value].snapshots == names
  }

  lemma PointIndexAppended(points: seq<Point>, key: string, names: seq<string>)
    requires PointIndex(points, key).None?
    ensures Serves(points + [Point(key, names)], key, names)
  {
    var i := PointIndex(points + [Point(key, names)], key);
    assert (points + [Point(key, names)])[|points|].key == key;
  }

  lemma PointIndexSwitched(points: seq<Point>, key: string, names: seq<string>)
    requires PointIndex(points, key).Some?
    ensures Serves(points[PointIndex(points, key).value := Point(key, names)], key, names)
  {
    var i := PointIndex(points, key).value;
    var q := points[i := Point(key, names)];
    assert q[i].key == key;
    assert PointIndex(q, key).value == i;
  }

  class Aptly {
    const cmd: string
    const separator: string
    /** The timestamp fixed when the object is made. */
    const now: string
    const tool: Store
    /** `@updated_mirrors`. */
    var updatedMirrors: set<string>

    ghost predicate Valid()
      reads this, tool
    {
      tool.Valid()
    }

    constructor (separator: string, cmd: string, now: string, tool: Store)
      ensures this.separator == separator && this.cmd == cmd && this.now == now && this.tool == tool
      ensures updatedMirrors == {}
    {
      this.separator := separator;
      this.cmd := cmd;
      this.now := now;
      this.tool := tool;
      updatedMirrors := {};
    }

    /** The name every snapshot made with this prefix gets. */
    function NewName(prefix: string): string
    {
      prefix + separator + now
    }

    // ----- listings -----

    method Mirrors() returns (r: Result<seq<string>, Error>)
      requires Valid()
      modifies tool
      ensures Valid() && tool.db == old(tool.db) && tool.rank == old(tool.rank) && tool.top == old(tool.top)
      ensures tool.log == old(tool.log) + [Exec(ListMirrorsArgv(cmd))]
      ensures r == Ok(tool.db.mirrorNames)
    {
      // Listing never fails in the modelled tool.
      var resp := tool.ListMirrors(cmd);
      var out := resp.output;
      ListingRoundTrip(tool.db.mirrorNames);
      r := Ok(ChompedLines(out));
    }

    method Snapshots() returns (r: Result<seq<string>, Error>)
      requires Valid()
      modifies tool
      ensures Valid() && tool.db == old(tool.db) && tool.rank == old(tool.rank) && tool.top == old(tool.top)
      ensures tool.log == old(tool.log) + [Exec(ListSnapshotsArgv(cmd))]
      ensures r == Ok(tool.db.names)
    {
      var resp := tool.ListSnapshots(cmd);
      var out := resp.output;
      forall k | 0 <= k < |tool.db.names| ensures OneLine(tool.db.names[k]) {
        assert tool.db.names[k] in tool.db.snapshots;
      }
      ListingRoundTrip(tool.db.names);
      r := Ok(ChompedLines(out));
    }

    method PublishPoints() returns (r: Result<seq<string>, Error>)
      requires Valid()
      modifies tool
      ensures Valid() && tool.db == old(tool.db) && tool.rank == old(tool.rank) && tool.top == old(tool.top)
      ensures tool.log == old(tool.log) + [Exec(ListPublishArgv(cmd))]
      ensures r == Ok(PointKeys(tool.db.points))
    {
      var resp := tool.ListPublished(cmd);
      var out := resp.output;
      ListingRoundTrip(PointKeys(tool.db.points));
      r := Ok(ChompedLines(out));
    }

    // ----- mirrors -----

    /** `update_mirror(*mirrors)`: each mirror not updated before by this
        object is updated, once. */
    method UpdateMirror(mirrors: seq<string>) returns (r: Result<(), Error>)
      requires Valid()
      modifies this, tool
      ensures Valid() && tool.rank == old(tool.rank) && tool.top == old(tool.top)
      ensures tool.db == old(tool.db).(mirrors := tool.db.mirrors) && tool.db.mirrors.Keys == old(tool.db.mirrors).Keys
      ensures old(tool.log) <= tool.log
      ensures r.Ok? ==> forall m :: m in updatedMirrors <==> m in old(updatedMirrors) || m in mirrors
      ensures r.Ok? ==> tool.log == old(tool.log) + UpdateLog(cmd, UpdatePlan(old(updatedMirrors), mirrors))
      ensures r.Ok? ==> forall m :: m in mirrors ==> m in old(updatedMirrors) || m in tool.db.mirrors
      ensures r.Err? ==> r.error.Failed?
    {
      var i := 0;
      while i < |mirrors|
        invariant 0 <= i <= |mirrors|
        invariant Valid() && tool.rank == old(tool.rank) && tool.top == old(tool.top)
        invariant tool.db.names == old(tool.db.names) && tool.db.snapshots == old(tool.db.snapshots)
        invariant tool.db.mirrorNames == old(tool.db.mirrorNames) && tool.db.points == old(tool.db.points)
        invariant tool.db.mirrors.Keys == old(tool.db.mirrors).Keys && old(tool.log) <= tool.log
        invariant forall m :: m in updatedMirrors <==> m in old(updatedMirrors) || m in mirrors[..i]
        invariant tool.log + UpdateLog(cmd, UpdatePlan(updatedMirrors, mirrors[i..]))
                  == old(tool.log) + UpdateLog(cmd, UpdatePlan(old(updatedMirrors), mirrors))
        invariant forall m :: m in mirrors[..i] ==> m in old(updatedMirrors) || m in tool.db.mirrors
      {
        var m := mirrors[i];
        ghost var done, before := updatedMirrors, tool.log;
        var _ :- UpdateOne(m);
        PendingStep(cmd, mirrors, i, done, before, updatedMirrors, tool.log);
        assert mirrors[..i + 1] == mirrors[..i] + [m];
        i := i + 1;
      }
      assert mirrors[..i] == mirrors;
      r := Ok(());
    }

    /** The body of the loop of `update_mirror`: a mirror updated before by
        this object is skipped; otherwise one `mirror update`, remembered only
        when it succeeds. */
    method UpdateOne(m: string) returns (r: Result<(), Error>)
      requires Valid()
      modifies this, tool
      ensures Valid() && tool.rank == old(tool.rank) && tool.top == old(tool.top)
      ensures tool.db == old(tool.db).(mirrors := tool.db.mirrors) && tool.db.mirrors.Keys == old(tool.db.mirrors).Keys
      ensures m in old(updatedMirrors) ==> r.Ok? && tool.log == old(tool.log) && updatedMirrors == old(updatedMirrors)
      ensures m !in old(updatedMirrors) ==> tool.log == old(tool.log) + [Exec(UpdateArgv(cmd, m))]
      ensures r.Ok? ==> updatedMirrors == old(updatedMirrors) + {m} && m in old(updatedMirrors) + tool.db.mirrors.Keys
      ensures r.Err? ==> r.error.Failed?
    {
      if m in updatedMirrors {
        return Ok(());
      }
      var resp := tool.UpdateMirror(cmd, m);
      if resp.status != 0 {
        return Err(Failed(RunError(Exec(UpdateArgv(cmd, m)), resp.status, resp.output)));
      }
      updatedMirrors := updatedMirrors + {m};
      r := Ok(());
    }

    /** `create_mirror`: nothing when the mirror is listed already; a
        RunError with status 255 when location or release is missing;
        otherwise `mirror create` with the flags in their fixed order. */
    method CreateMirror(name: string, config: Value) returns (r: Result<(), Error>)
      requires Valid()
      modifies tool
      ensures Valid() && tool.rank == old(tool.rank) && tool.top == old(tool.top)
      ensures tool.db.names == old(tool.db.names) && tool.db.snapshots == old(tool.db.snapshots)
      ensures tool.db.points == old(tool.db.points)
      ensures name in old(tool.db.mirrors) ==> r == Ok(()) && tool.db == old(tool.db)
      ensures name !in old(tool.db.mirrors) && config.Hash? && MissingSetting(name, config).Some? ==>
        r == Err(Failed(MissingSetting(name, config).value)) && tool.db == old(tool.db)
      ensures name !in old(tool.db.mirrors) && config.Str? ==>
        r.Err? && tool.db == old(tool.db)
        && (r.error.Failed? <==> !Contains(config.s, "location") || !Contains(config.s, "release"))
        && (!Contains(config.s, "location") ==>
              r == Err(Failed(RunError(Exec([]), 255, "Mirror " + name + " has no location"))))
      ensures r.Ok? ==> name in tool.db.mirrors
      ensures r.Ok? && name !in old(tool.db.mirrors) ==>
        config.Hash? && MirrorFlags(config).Ok? && MirrorTail(name, config, tool.forceComponents).Ok?
        && |tool.log| > 0
        && tool.log[|tool.log| - 1]
           == Exec(MirrorCreateArgv(cmd, MirrorFlags(config).value, MirrorTail(name, config, tool.forceComponents).value))
    {
      var listing := Mirrors();
      var listed := listing.value;
      if name in listed {
        return Ok(());
      }
      if config.Str? {
        // String#[] answers a substring or `nil`; a string naming both keys
        // reaches the merge into the defaults, which refuses it.
        if !Contains(config.s, "location") {
          return Err(Failed(RunError(Exec([]), 255, "Mirror " + name + " has no location")));
        }
        if !Contains(config.s, "release") {
          return Err(Failed(RunError(Exec([]), 255, "Mirror " + name + " has no release")));
        }
        return Err(Fault("TypeError: no implicit conversion of String into Hash"));
      }
      if !config.Hash? {
        return Err(Fault("NoMethodError: undefined method `[]'"));
      }
      var missing := MissingSetting(name, config);
      if missing.Some? {
        return Err(Failed(missing.value));
      }
      var flags :- MirrorFlags(config);
      var force := tool.SupportsForceComponents(cmd);
      var tail :- MirrorTail(name, config, force);
      var argv := MirrorCreateArgv(cmd, flags, tail);
      var resp := tool.CreateMirror(argv, name);
      var _ :- Checked(argv, resp);
      r := Ok(());
    }

    // ----- new snapshots -----

    /** `create_snapshot_mirror`: updates the mirror (once per object), then
        snapshots it under the new name. */
    method CreateSnapshotMirror(mirror: string, prefix: string) returns (r: Result<string, Error>)
      requires Valid()
      modifies this, tool
      ensures Valid()
      ensures tool.db.points == old(tool.db.points)
      ensures forall n :: n in old(tool.db.snapshots) ==> n in tool.db.snapshots && tool.db.snapshots[n] == old(tool.db.snapshots)[n]
      ensures forall n :: n in old(tool.db.snapshots) ==> RankIn(tool.rank, n) == RankIn(old(tool.rank), n)
      ensures r.Ok? ==> r.value == NewName(prefix) && r.value !in old(tool.db.snapshots)
      ensures r.Ok? ==> (mirror in updatedMirrors && mirror in tool.db.mirrors
        && tool.db.snapshots == old(tool.db.snapshots)[r.value := Snapshot(MirrorDescription(mirror), [], Fetched(mirror, tool.db.mirrors[mirror]))])
      ensures r.Ok? ==> tool.log == old(tool.log) + UpdateLog(cmd, UpdatePlan(old(updatedMirrors), [mirror]))
                                   + [Exec(FromMirrorArgv(cmd, NewName(prefix), mirror))]
      ensures r.Err? ==> tool.db.snapshots == old(tool.db.snapshots)
      ensures old(tool.log) <= tool.log
    {
      var name := NewName(prefix);
      var _ :- UpdateMirror([mirror]);
      var resp := tool.CreateFromMirror(cmd, name, mirror);
      var _ :- Checked(FromMirrorArgv(cmd, name, mirror), resp);
      r := Ok(name);
    }

    /** `create_snapshot_repo`. */
    method CreateSnapshotRepo(repo: string, prefix: string) returns (r: Result<string, Error>)
      requires Valid()
      modifies tool
      ensures Valid()
      ensures tool.db.points == old(tool.db.points)
      ensures forall n :: n in old(tool.db.snapshots) ==> n in tool.db.snapshots && tool.db.snapshots[n] == old(tool.db.snapshots)[n]
      ensures forall n :: n in old(tool.db.snapshots) ==> RankIn(tool.rank, n) == RankIn(old(tool.rank), n)
      ensures tool.log == old(tool.log) + [Exec(FromRepoArgv(cmd, NewName(prefix), repo))]
      ensures r.Ok? ==> (r.value == NewName(prefix) && r.value !in old(tool.db.snapshots)
        && tool.db.snapshots == old(tool.db.snapshots)[r.value := Snapshot(RepoDescription(repo), [], Local(repo))])
      ensures r.Err? ==> tool.db.snapshots == old(tool.db.snapshots)
    {
      var name := NewName(prefix);
      var resp := tool.CreateFromRepo(cmd, name, repo);
      var _ :- Checked(FromRepoArgv(cmd, name, repo), resp);
      r := Ok(name);
    }

    /** `merge`: a merge snapshot of `sources`, in order. */
    method Merge(prefix: string, sources: seq<string>) returns (r: Result<string, Error>)
      requires Valid()
      modifies tool
      ensures Valid()
      ensures tool.db.points == old(tool.db.points)
      ensures forall n :: n in old(tool.db.snapshots) ==> n in tool.db.snapshots && tool.db.snapshots[n] == old(tool.db.snapshots)[n]
      ensures forall n :: n in old(tool.db.snapshots) ==> RankIn(tool.rank, n) == RankIn(old(tool.rank), n)
      ensures tool.log == old(tool.log) + [Exec(MergeArgv(cmd, NewName(prefix), sources))]
      ensures r.Ok? ==> (r.value == NewName(prefix) && r.value in tool.db.snapshots
        && tool.db.snapshots[r.value].sources == sources)
      ensures r.Err? ==> tool.db.snapshots == old(tool.db.snapshots)
    {
      var name := NewName(prefix);
      var resp := tool.Merge(cmd, name, sources);
      var _ :- Checked(MergeArgv(cmd, name, sources), resp);
      r := Ok(name);
    }

    // ----- comparing and dropping -----

    /** `snapshot_diff`: true when the two snapshots differ. */
    method SnapshotDiff(a: string, b: string) returns (r: Result<bool, Error>)
      requires Valid()
      modifies tool
      ensures Valid() && tool.db == old(tool.db) && tool.rank == old(tool.rank) && tool.top == old(tool.top)
      ensures tool.log == old(tool.log) + [Exec(DiffArgv(cmd, a, b))]
      ensures r.Ok? <==> a in tool.db.snapshots && b in tool.db.snapshots
      ensures r.Ok? ==> (r.value <==> tool.db.snapshots[a].content != tool.db.snapshots[b].content)
      ensures r.Err? ==> r.error.Failed?
    {
      var resp := tool.Diff(cmd, a, b);
      var out :- Checked(DiffArgv(cmd, a, b), resp);
      r := Ok(SnapshotsDiffer(out));
    }

    /** `drop_snapshot` as a loop of drops relies on it: it publishes
        nothing, removes no published snapshot, and on success has run the
        drop of `name`. */
    method DropLogged(name: string) returns (r: Result<(), Error>)
      requires Valid()
      modifies tool
      ensures Valid() && Shrunk(old(tool.db), tool.db)
      ensures old(tool.log) <= tool.log && Quiet(tool.log, |old(tool.log)|)
      ensures r.Ok? ==> Exec(DropArgv(cmd, name)) in RunSince(tool.log, |old(tool.log)|)
    {
      r := DropSnapshot(name);
    }

    /** `drop_snapshot`: reads the description, drops the snapshot unless the
        tool refuses because it is published or merged elsewhere, and for a
        merge goes on with every source, retained or not. */
    method DropSnapshot(name: string) returns (r: Result<(), Error>)
      requires Valid()
      modifies tool
      decreases RankIn(tool.rank, name), 2
      ensures Valid() && tool.rank == old(tool.rank) && tool.top == old(tool.top)
      ensures Shrunk(old(tool.db), tool.db)
      ensures forall n :: n in old(tool.db.snapshots) && n !in tool.db.snapshots ==>
        n == name || RankIn(tool.rank, n) < RankIn(tool.rank, name)
      ensures name !in old(tool.db.snapshots) ==> r.Err? && tool.db == old(tool.db)
      ensures r.Ok? ==> Retained(tool.db, name)
      ensures old(tool.log) < tool.log && tool.log[|old(tool.log)|] == Exec(ShowArgv(cmd, name))
      ensures Quiet(tool.log, |old(tool.log)|)
      ensures r.Ok? ==> Exec(DropArgv(cmd, name)) in RunSince(tool.log, |old(tool.log)|)
      ensures r.Ok? && name in old(tool.db.snapshots) && IsMergeDescription(old(tool.db.snapshots)[name].description) ==>
        forall s :: s in Lineage(old(tool.db.snapshots)[name].description) ==>
          Exec(DropArgv(cmd, s)) in RunSince(tool.log, |old(tool.log)|)
    {
      SnapshotCommandsQuiet(cmd, name);
      var descr :- Describe(name);
      ghost var shownLog := tool.log;
      var _ :- DropOne(name);
      QuietAppend(shownLog, |old(tool.log)|, Exec(DropArgv(cmd, name)));
      assert tool.log[|old(tool.log)| + 1] == Exec(DropArgv(cmd, name));
      if !IsMergeDescription(descr) {
        return Ok(());
      }
      ghost var before := tool.log;
      r := DropSources(name, Lineage(descr));
      QuietJoin(before, tool.log, |old(tool.log)|);
      RunSinceGrows(before, tool.log, |old(tool.log)|);
      RunSinceNarrows(tool.log, |old(tool.log)|, |before|);
    }

    /** The first step of `drop_snapshot`: `snapshot show` and its
        `Description: ` line. */
    method Describe(name: string) returns (r: Result<string, Error>)
      requires Valid()
      modifies tool
      ensures Valid() && tool.db == old(tool.db) && tool.rank == old(tool.rank) && tool.top == old(tool.top)
      ensures tool.log == old(tool.log) + [Exec(ShowArgv(cmd, name))]
      ensures r.Ok? <==> name in tool.db.snapshots
      ensures r.Ok? ==> r.value == tool.db.snapshots[name].description
    {
      var shown := tool.Show(cmd, name);
      var out :- Checked(ShowArgv(cmd, name), shown);
      DescriptionOfShowOutput(name, tool.db.snapshots[name].description);
      r := Ok(DescriptionOf(out).value);
    }

    /** The `snapshot drop` of `drop_snapshot`: a refusal because the snapshot
        is published or merged elsewhere is tolerated, any other failure is
        raised again. */
    method DropOne(name: string) returns (r: Result<(), Error>)
      requires Valid() && name in tool.db.snapshots
      modifies tool
      ensures Valid() && tool.rank == old(tool.rank) && tool.top == old(tool.top)
      ensures tool.log == old(tool.log) + [Exec(DropArgv(cmd, name))]
      ensures Shrunk(old(tool.db), tool.db)
      ensures forall n :: n in old(tool.db.snapshots) && n !in tool.db.snapshots ==> n == name
      ensures r.Ok? ==> Retained(tool.db, name)
    {
      var dropped := tool.Drop(cmd, name);
      if dropped.status != 0 && ClassifyDropFailure(dropped.output) == Fatal {
        return Err(Failed(RunError(Exec(DropArgv(cmd, name)), dropped.status, dropped.output)));
      }
      r := Ok(());
    }

    /** The loop of `drop_snapshot` over the sources of a merge that was just
        dropped, or kept because the tool refused. */
    method DropSources(name: string, lineage: seq<string>) returns (r: Result<(), Error>)
      requires Valid()
      requires forall k :: 0 <= k < |lineage| ==> RankIn(tool.rank, lineage[k]) < RankIn(tool.rank, name)
      requires Retained(tool.db, name)
      modifies tool
      decreases RankIn(tool.rank, name), 1
      ensures Valid() && tool.rank == old(tool.rank) && tool.top == old(tool.top)
      ensures Shrunk(old(tool.db), tool.db)
      ensures forall n :: n in old(tool.db.snapshots) && n !in tool.db.snapshots ==> RankIn(tool.rank, n) < RankIn(tool.rank, name)
      ensures r.Ok? ==> Retained(tool.db, name)
      ensures old(tool.log) <= tool.log
      ensures Quiet(tool.log, |old(tool.log)|)
      ensures r.Ok? ==> forall k :: 0 <= k < |lineage| ==> Exec(DropArgv(cmd, lineage[k])) in RunSince(tool.log, |old(tool.log)|)
    {
      var i := 0;
      while i < |lineage|
        invariant 0 <= i <= |lineage|
        invariant Valid() && tool.rank == old(tool.rank) && tool.top == old(tool.top)
        invariant Shrunk(old(tool.db), tool.db)
        invariant forall n :: n in old(tool.db.snapshots) && n !in tool.db.snapshots ==> RankIn(tool.rank, n) < RankIn(tool.rank, name)
        invariant Retained(tool.db, name)
        invariant old(tool.log) <= tool.log
        invariant Quiet(tool.log, |old(tool.log)|)
        invariant forall k :: 0 <= k < i ==> Exec(DropArgv(cmd, lineage[k])) in RunSince(tool.log, |old(tool.log)|)
      {
        ghost var log := tool.log;
        var sub := DropSource(name, lineage[i]);
        if sub.Err? {
          return sub;
        }
        QuietJoin(log, tool.log, |old(tool.log)|);
        RunSinceGrows(log, tool.log, |old(tool.log)|);
        RunSinceNarrows(tool.log, |old(tool.log)|, |log|);
        ghost var ran := RunSince(tool.log, |old(tool.log)|);
        assert forall k :: 0 <= k < i ==> Exec(DropArgv(cmd, lineage[k])) in ran;
        assert Exec(DropArgv(cmd, lineage[i])) in ran;
        i := i + 1;
      }
      r := Ok(());
    }

    /** One source of the loop: dropping it, or leaving it because the tool
        refuses, keeps the merge `name` retained. */
    method DropSource(name: string, source: string) returns (r: Result<(), Error>)
      requires Valid()
      requires RankIn(tool.rank, source) < RankIn(tool.rank, name) && Retained(tool.db, name)
      modifies tool
      decreases RankIn(tool.rank, name), 0
      ensures Valid() && tool.rank == old(tool.rank) && tool.top == old(tool.top)
      ensures Shrunk(old(tool.db), tool.db)
      ensures forall n :: n in old(tool.db.snapshots) && n !in tool.db.snapshots ==> RankIn(tool.rank, n) < RankIn(tool.rank, name)
      ensures Retained(tool.db, name)
      ensures old(tool.log) <= tool.log && Quiet(tool.log, |old(tool.log)|)
      ensures r.Ok? ==> Exec(DropArgv(cmd, source)) in RunSince(tool.log, |old(tool.log)|)
    {
      ghost var before := tool.db;
      ghost var user := UserOf(name);
      r := DropSnapshot(source);
      RetainedAfter(before, name, source, user);
    }

    /** A merge made from `name`, when `name` is unpublished and such a merge
        exists; it ranks above `name`. */
    ghost function UserOf(name: string): (r: Option<string>)
      requires Valid()
      reads this, tool
      ensures r.Some? ==> r.value in tool.db.snapshots && name in tool.db.snapshots[r.value].sources
                          && RankIn(tool.rank, name) < RankIn(tool.rank, r.value)
      ensures name in tool.db.snapshots && !Published(tool.db.points, name) && UsedAsSource(tool.db.snapshots, name) ==> r.Some?
    {
      if name in tool.db.snapshots && !Published(tool.db.points, name) && UsedAsSource(tool.db.snapshots, name) then
        var m :| m in tool.db.snapshots && name in tool.db.snapshots[m].sources;
        var k :| 0 <= k < |tool.db.snapshots[m].sources| && tool.db.snapshots[m].sources[k] == name;
        Some(m)
      else None
    }

    /** A merge that still uses `name` ranks above it, so above the source
        that was dropped, and survives that drop. */
    lemma RetainedAfter(before: Db, name: string, sub: string, user: Option<string>)
      requires Shrunk(before, tool.db)
      requires forall n :: n in before.snapshots && n !in tool.db.snapshots ==> n == sub || RankIn(tool.rank, n) < RankIn(tool.rank, sub)
      requires RankIn(tool.rank, sub) < RankIn(tool.rank, name)
      requires Retained(before, name)
      requires user.Some? ==> user.value in before.snapshots && name in before.snapshots[user.value].sources
                              && RankIn(tool.rank, name) < RankIn(tool.rank, user.value)
      requires name in before.snapshots && !Published(before.points, name) && UsedAsSource(before.snapshots, name) ==> user.Some?
      ensures Retained(tool.db, name)
    {
      if name in tool.db.snapshots && !Published(before.points, name) {
        assert user.value in tool.db.snapshots;
      }
    }

    /** `snapshot_dedup`: with no previous snapshot, or when the two differ,
        the new one stays; when they are identical the new one is dropped and
        the previous one is used instead. */
    method SnapshotDedup(newOne: string, oldOne: Option<string>) returns (r: Result<string, Error>)
      requires Valid()
      modifies tool
      ensures Valid() && tool.rank == old(tool.rank) && tool.top == old(tool.top)
      ensures Shrunk(old(tool.db), tool.db)
      ensures oldOne.None? ==> r == Ok(newOne) && tool.db == old(tool.db) && tool.log == old(tool.log)
      ensures r.Ok? && oldOne.Some? ==> newOne in old(tool.db.snapshots) && oldOne.value in old(tool.db.snapshots)
      ensures r.Ok? && oldOne.Some? ==>
        var differ := old(tool.db.snapshots)[newOne].content != old(tool.db.snapshots)[oldOne.value].content;
        (differ ==> r.value == newOne && tool.db == old(tool.db))
        && (!differ ==> r.value == oldOne.value && Retained(tool.db, newOne)
                        && Exec(DropArgv(cmd, newOne)) in RunSince(tool.log, |old(tool.log)|))
      ensures r.Ok? && r.value != newOne ==> Retained(tool.db, newOne)
      ensures old(tool.log) <= tool.log
      ensures forall n :: n in old(tool.db.snapshots) && n !in tool.db.snapshots ==>
        n == newOne || RankIn(tool.rank, n) < RankIn(tool.rank, newOne)
    {
      if oldOne.None? {
        return Ok(newOne);
      }
      var differ :- SnapshotDiff(newOne, oldOne.value);
      if differ {
        return Ok(newOne);
      }
      ghost var diffed := tool.log;
      var _ :- DropSnapshot(newOne);
      RunSinceNarrows(tool.log, |old(tool.log)|, |diffed|);
      r := Ok(oldOne.value);
    }

    // ----- scripts and publishing -----

    /** `script`: every `##APTLY##` becomes the aptly command, the script runs,
        and its standard output comes back without the trailing line break; a
        non-zero exit raises with the interleaved output. */
    method Script(text: string) returns (r: Result<string, Error>)
      requires Valid()
      modifies tool
      ensures Valid() && tool.db == old(tool.db) && tool.rank == old(tool.rank) && tool.top == old(tool.top)
      ensures tool.log == old(tool.log) + [Invocation.Shell(SubstituteCommand(text, cmd))]
      ensures var outcome := tool.scripts(SubstituteCommand(text, cmd));
        r == if outcome.status != 0
             then Err(Failed(RunError(Invocation.Shell(SubstituteCommand(text, cmd)), outcome.status, outcome.mixed)))
             else Ok(Chomp(outcome.stdout))
    {
      var script := SubstituteCommand(text, cmd);
      var outcome := tool.RunScript(script);
      if outcome.status != 0 {
        return Err(Failed(RunError(Invocation.Shell(script), outcome.status, outcome.mixed)));
      }
      r := Ok(Chomp(outcome.stdout));
    }

    /** `publish`: switches the point when `publish list` has it, creates it
        otherwise; the components' snapshots follow their names in order. */
    method Publish(path: string, components: seq<(string, Option<string>)>, architectures: Value) returns (r: Result<(), Error>)
      requires Valid()
      modifies tool
      ensures Valid() && tool.rank == old(tool.rank) && tool.top == old(tool.top)
      ensures tool.db.names == old(tool.db.names) && tool.db.snapshots == old(tool.db.snapshots)
      ensures tool.db.mirrors == old(tool.db.mirrors)
      ensures SplitPath(path).None? ==> r.Err? && tool.db == old(tool.db) && tool.log == old(tool.log)
      ensures r.Ok? ==> SplitPath(path).Some? && Resolved(components).Some?
      ensures r.Ok? ==> Serves(tool.db.points, PointKey(SplitPath(path).value.0, SplitPath(path).value.1),
                               Names(Resolved(components).value))
      ensures r.Ok? ==> (|tool.log| > 0 &&
        if PointKey(SplitPath(path).value.0, SplitPath(path).value.1) in PointKeys(old(tool.db.points))
        then tool.log[|tool.log| - 1] == Exec(SwitchArgv(cmd, SplitPath(path).value.0, SplitPath(path).value.1, Resolved(components).value))
        else (JoinArchitectures(architectures).Ok? &&
          tool.log[|tool.log| - 1] == Exec(CreatePublishArgv(cmd, SplitPath(path).value.0, SplitPath(path).value.1,
                                                             Resolved(components).value, [JoinArchitectures(architectures).value]))))
    {
      var split := SplitPath(path);
      if split.None? {
        return Err(Fault("NoMethodError: undefined method `captures' for nil"));
      }
      var (prefix, distribution) := split.value;
      var listing := PublishPoints();
      var points := listing.value;
      var key := PointKey(prefix, distribution);
      var resolved := Resolved(components);
      if key in points {
        if resolved.None? {
          return Err(Fault("TypeError: no implicit conversion of nil into String"));
        }
        var argv := SwitchArgv(cmd, prefix, distribution, resolved.value);
        ghost var before := tool.db.points;
        var resp := tool.PublishSwitch(argv, key, Names(resolved.value));
        var _ :- Checked(argv, resp);
        PointIndexSwitched(before, key, Names(resolved.value));
      } else {
        var archs :- JoinArchitectures(architectures);
        if resolved.None? {
          return Err(Fault("TypeError: no implicit conversion of nil into String"));
        }
        var argv := CreatePublishArgv(cmd, prefix, distribution, resolved.value, [archs]);
        ghost var before := tool.db.points;
        var resp := tool.PublishNew(argv, key, Names(resolved.value));
        var _ :- Checked(argv, resp);
        PointIndexAppended(before, key, Names(resolved.value));
      }
      r := Ok(());
    }

    method Cleanup() returns (r: Result<(), Error>)
      requires Valid()
      modifies tool
      ensures Valid() && tool.db == old(tool.db) && tool.rank == old(tool.rank) && tool.top == old(tool.top)
      ensures tool.log == old(tool.log) + [Exec(CleanupArgv(cmd))]
      ensures r.Ok?
    {
      // `db cleanup` never fails in the modelled tool.
      var resp := tool.Cleanup(cmd);
      r := Ok(());
    }
  }
}
