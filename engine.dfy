/** The `AptlyUpdate` engine: for each component of a publishing point it
    resolves which snapshot to publish (an explicit one, a script's output, a
    new snapshot of a mirror or local repository, or a merge of resolved
    sources), deduplicates it against the newest one of its family, applies
    the `lag` and `keep` settings, and finally publishes or switches the
    point. */
module Engine {
  import opened Wrappers
  import opened Text
  import opened Values
  import opened Protocol
  import opened Tool
  import opened Gateway
  import opened Resolve

  /** `default_value`: the setting, or the default when it is `nil`. */
  function DefaultValue(v: Value, default: Value): (r: Value)
    ensures v.Nil? ==> r == default
    ensures !v.Nil? ==> r == v
  {
    if v.Nil? then default else v
  }

  /** What resolving a component may change: the points stay as they are and
      no published snapshot goes. */
  ghost predicate Kept(before: Db, after: Db) {
    after.points == before.points
    && forall n :: n in before.snapshots && Published(before.points, n) ==> n in after.snapshots
  }

  /** The snapshots of `sources`, when every source resolved to one; a `nil`
      source cannot be passed to `snapshot merge`. */
  function AllResolved(sources: seq<Option<string>>): (r: Option<seq<string>>)
    ensures r.Some? <==> forall k :: 0 <= k < |sources| ==> sources[k].Some?
    ensures r.Some? ==> |r.value| == |sources| && forall k :: 0 <= k < |sources| ==> r.value[k] == sources[k].value
  {
    if sources == [] then Some([])
    else if sources[0].None? then None
    else match AllResolved(sources[1..])
      case None => None
      case Some(rest) => Some([sources[0].value] + rest)
  }

  /** A component set to a snapshot by name, with the default lag and any
      type but `once`: when its family is empty it resolves to that name. */
  predicate ExplicitSnapshot(conf: Value) {
    conf.Hash? && HasKey(conf, "snapshot") && Get(conf, "snapshot").Str?
    && Get(conf, "type") != Str("once") && Get(conf, "lag").Nil?
    && (Get(conf, "keep").Nil? || Get(conf, "keep").Int?)
  }

  /** The `change` dedup step against the database `db`: a `change`
      candidate whose content equals the newest of its family gives way to
      that newest; otherwise the candidate stands. */
  ghost predicate Deduped(kind: Value, family: seq<string>, snapshot: string, db: Db, candidate: string) {
    if kind != Str("change") || family == [] then candidate == snapshot
    else
      var newest := family[|family| - 1];
      snapshot in db.snapshots && newest in db.snapshots
      && candidate == (if db.snapshots[snapshot].content == db.snapshots[newest].content then newest else snapshot)
  }

  /** The sources `merge` maps over: a list, or an empty hash. */
  function MergeItems(merge: Value): (r: Option<seq<Value>>)
    ensures merge.List? ==> r == Some(merge.items)
    ensures r.Some? && !merge.List? ==> r.value == []
  {
    if merge.List? then Some(merge.items)
    else if merge == Hash([]) then Some([])
    else None
  }

  /** Every source `merge` maps over is part of the configuration, so
      resolving the sources terminates. */
  lemma MergeItemsBelow(conf: Value)
    requires conf.Hash? && HasKey(conf, "merge") && MergeItems(Get(conf, "merge")).Some?
    ensures forall k :: 0 <= k < |MergeItems(Get(conf, "merge")).value| ==> MergeItems(Get(conf, "merge")).value[k] < conf
  {
    var merge := Get(conf, "merge");
    forall k | 0 <= k < |MergeItems(merge).value| ensures MergeItems(merge).value[k] < conf {
      assert MergeItems(merge).value[k] < merge;
    }
  }

  /** The snapshot names `items` are set to, when every one is an explicit
      snapshot. */
  function ExplicitNames(items: seq<Value>): (r: Option<seq<string>>)
    ensures r.Some? <==> forall k :: 0 <= k < |items| ==> ExplicitSnapshot(items[k])
    ensures r.Some? ==> |r.value| == |items| && forall k :: 0 <= k < |items| ==> r.value[k] == Get(items[k], "snapshot").s
  {
    if items == [] then Some([])
    else if !ExplicitSnapshot(items[0]) then None
    else match ExplicitNames(items[1..])
      case None => None
      case Some(rest) => Some([Get(items[0], "snapshot").s] + rest)
  }

  /** `config['architectures'] || ['all']`. */
  function PublishArchitectures(config: Value): (r: Value)
    requires config.Hash?
    ensures Truthy(Get(config, "architectures")) ==> r == Get(config, "architectures")
    ensures !Truthy(Get(config, "architectures")) ==> r == List([Str("all")])
  {
    if Truthy(Get(config, "architectures")) then Get(config, "architectures") else List([Str("all")])
  }

  /** The default architectures join to `all`. */
  lemma AllArchitectures()
    ensures JoinArchitectures(List([Str("all")])) == Ok("all")
  {
    JoinItemsOfStrings(["all"], ",");
    assert Strs(["all"]) == [Str("all")];
  }

  class AptlyUpdate {
    const separator: string
    const aptly: Aptly
    /** The time `n` seconds before now, in the timestamp format. */
    const pivotFor: nat -> string

    ghost predicate Valid()
      reads this, aptly, aptly.tool
    {
      aptly.Valid()
    }

    constructor (separator: string, aptly: Aptly, pivotFor: nat -> string)
      ensures this.separator == separator && this.aptly == aptly && this.pivotFor == pivotFor
    {
      this.separator := separator;
      this.aptly := aptly;
      this.pivotFor := pivotFor;
    }

    /** `prune_old_snapshots`: drops the oldest of `older` until `keep`
        remain; nothing is published meanwhile. */
    method Prune(older: seq<string>, keep: nat) returns (r: Result<(), Error>)
      requires Valid()
      modifies aptly.tool
      ensures Valid() && Kept(old(aptly.tool.db), aptly.tool.db)
      ensures old(aptly.tool.log) <= aptly.tool.log && Quiet(aptly.tool.log, |old(aptly.tool.log)|)
      ensures |older| <= keep ==> r == Ok(()) && aptly.tool.db == old(aptly.tool.db) && aptly.tool.log == old(aptly.tool.log)
      ensures r.Ok? ==> forall k :: 0 <= k < |older| - keep ==>
        Exec(DropArgv(aptly.cmd, older[k])) in RunSince(aptly.tool.log, |old(aptly.tool.log)|)
    {
      var i := 0;
      while i < |older| - keep
        invariant Valid() && Kept(old(aptly.tool.db), aptly.tool.db)
        invariant 0 <= i && (i == 0 || i <= |older| - keep)
        invariant i == 0 ==> aptly.tool.db == old(aptly.tool.db) && aptly.tool.log == old(aptly.tool.log)
        invariant old(aptly.tool.log) <= aptly.tool.log && Quiet(aptly.tool.log, |old(aptly.tool.log)|)
        invariant forall k :: 0 <= k < i ==>
          Exec(DropArgv(aptly.cmd, older[k])) in RunSince(aptly.tool.log, |old(aptly.tool.log)|)
      {
        ghost var before := aptly.tool.log;
        var dropped := aptly.DropLogged(older[i]);
        LogStep(before, aptly.tool.log, |old(aptly.tool.log)|);
        if dropped.Err? {
          return Err(dropped.error);
        }
        i := i + 1;
      }
      r := Ok(());
    }

    /** The `change` step of `resolve_snapshot`: the new snapshot of a
        `change` component is compared with the newest of its family and,
        when the two are identical, dropped in favour of it. */
    method Dedup(kind: Value, family: seq<string>, snapshot: string) returns (r: Result<string, Error>)
      requires Valid()
      modifies aptly.tool
      ensures Valid() && Kept(old(aptly.tool.db), aptly.tool.db)
      ensures old(aptly.tool.log) <= aptly.tool.log
      ensures kind != Str("change") || family == [] ==>
        r == Ok(snapshot) && aptly.tool.db == old(aptly.tool.db) && aptly.tool.log == old(aptly.tool.log)
      ensures r.Ok? && kind == Str("change") && family != [] ==>
        var newest := family[|family| - 1];
        snapshot in old(aptly.tool.db.snapshots) && newest in old(aptly.tool.db.snapshots)
        && (old(aptly.tool.db.snapshots)[snapshot].content != old(aptly.tool.db.snapshots)[newest].content ==>
              r.value == snapshot && aptly.tool.db == old(aptly.tool.db))
        && (old(aptly.tool.db.snapshots)[snapshot].content == old(aptly.tool.db.snapshots)[newest].content ==>
              r.value == newest && Retained(aptly.tool.db, snapshot)
              && Exec(DropArgv(aptly.cmd, snapshot)) in RunSince(aptly.tool.log, |old(aptly.tool.log)|))
      ensures r.Ok? ==> Deduped(kind, family, snapshot, old(aptly.tool.db), r.value)
    {
      if kind != Str("change") {
        return Ok(snapshot);
      }
      r := aptly.SnapshotDedup(snapshot, RubyIndex(family, -1));
    }

    /** The part of `resolve_snapshot` after the snapshot is known: append it
        to the family, select by `lag`, and prune by `keep`. */
    method Settle(family: seq<string>, snapshot: string, lag: Value, keep: Value) returns (r: Result<string, Error>)
      requires Valid()
      modifies aptly.tool
      ensures Valid() && Kept(old(aptly.tool.db), aptly.tool.db)
      ensures old(aptly.tool.log) <= aptly.tool.log && Quiet(aptly.tool.log, |old(aptly.tool.log)|)
      ensures r.Ok? ==> keep.Int? && Select(Extend(family, snapshot), ParseLag(lag), separator + separator, pivotFor) == Ok(r.value)
      ensures r.Ok? ==> var plan := PrunePlan(Extend(family, snapshot), r.value, keep.i);
        forall k :: 0 <= k < |plan| ==> Exec(DropArgv(aptly.cmd, plan[k])) in RunSince(aptly.tool.log, |old(aptly.tool.log)|)
      ensures !keep.Int? ==> r.Err?
      ensures var selected := Select(Extend(family, snapshot), ParseLag(lag), separator + separator, pivotFor);
        keep.Int? && selected.Ok? && PrunePlan(Extend(family, snapshot), selected.value, keep.i) == [] ==>
        r == selected && aptly.tool.db == old(aptly.tool.db) && aptly.tool.log == old(aptly.tool.log)
    {
      var ext := Extend(family, snapshot);
      var selected :- Select(ext, ParseLag(lag), separator + separator, pivotFor);
      if !keep.Int? {
        return Err(Fault("ArgumentError: comparison with 0 failed"));
      }
      if keep.i >= 0 {
        var _ :- Prune(Older(ext, selected), keep.i);
      }
      r := Ok(selected);
    }

    /** `resolve_snapshot` once the source gave `snapshot`: the dedup step,
        then the lag and keep steps; `candidate` is what the dedup step
        appended to the family. */
    method Finish(kind: Value, family: seq<string>, snapshot: string, lag: Value, keep: Value)
      returns (r: Result<string, Error>, ghost candidate: string)
      requires Valid()
      modifies aptly.tool
      ensures Valid() && Kept(old(aptly.tool.db), aptly.tool.db)
      ensures |old(aptly.tool.log)| <= |aptly.tool.log|
      ensures r.Ok? ==>
        keep.Int? && Deduped(kind, family, snapshot, old(aptly.tool.db), candidate)
        && Select(Extend(family, candidate), ParseLag(lag), separator + separator, pivotFor) == Ok(r.value)
      ensures r.Ok? ==> var plan := PrunePlan(Extend(family, candidate), r.value, keep.i);
        forall k :: 0 <= k < |plan| ==> Exec(DropArgv(aptly.cmd, plan[k])) in RunSince(aptly.tool.log, |old(aptly.tool.log)|)
      ensures family == [] && lag == Str("0") && keep.Int? ==>
        r == Ok(snapshot) && aptly.tool.db == old(aptly.tool.db)
    {
      candidate := snapshot;
      var deduped := Dedup(kind, family, snapshot);
      if deduped.Err? {
        return Err(deduped.error), candidate;
      }
      candidate := deduped.value;
      if family == [] {
        NothingOlderThanOnly(deduped.value);
      }
      ghost var settling := aptly.tool.log;
      r := Settle(family, deduped.value, lag, keep);
      RunSinceNarrows(aptly.tool.log, |old(aptly.tool.log)|, |settling|);
    }

    /** `resolve_snapshot`: the snapshot a component configuration resolves
        to, `nil` when it resolves to none. A `once` component is resolved to
        the newest of its family, whatever it is, without creating anything.
        `family` is the family as listed at the start, `initial` what the
        source gave, `sourced` the database once the source ran, and
        `candidate` the snapshot the dedup step appended to the family. */
    method ResolveSnapshot(prefix: string, conf: Value)
      returns (r: Result<Option<string>, Error>, ghost family: seq<string>, ghost initial: Option<string>,
               ghost sourced: Db, ghost candidate: string)
      requires Valid()
      modifies aptly, aptly.tool
      decreases conf, 3
      ensures Valid() && Kept(old(aptly.tool.db), aptly.tool.db)
      ensures |old(aptly.tool.log)| <= |aptly.tool.log|
      ensures !conf.Hash? ==> r.Err? && aptly.tool.db == old(aptly.tool.db)
      ensures conf.Hash? ==> family == Family(old(aptly.tool.db.names), prefix, separator)
      ensures conf.Hash? && Get(conf, "type") == Str("once") ==>
        r == Ok(RubyIndex(Family(old(aptly.tool.db.names), prefix, separator), -1))
        && aptly.tool.db == old(aptly.tool.db)
      ensures conf.Hash? && Get(conf, "type") != Str("once")
              && !HasKey(conf, "snapshot") && !HasKey(conf, "script") && !HasKey(conf, "mirror")
              && !HasKey(conf, "merge") && !HasKey(conf, "repo") ==>
        r == Ok(None) && aptly.tool.db == old(aptly.tool.db)
      ensures ExplicitSnapshot(conf) && Family(old(aptly.tool.db.names), prefix, separator) == [] ==>
        r == Ok(Some(Get(conf, "snapshot").s)) && aptly.tool.db == old(aptly.tool.db)
      ensures r.Ok? && r.value.Some? && conf.Hash? && Get(conf, "type") != Str("once") ==>
        initial.Some? && Kept(old(aptly.tool.db), sourced) && Kept(sourced, aptly.tool.db)
        && Deduped(DefaultValue(Get(conf, "type"), Str("change")), family, initial.value, sourced, candidate)
        && DefaultValue(Get(conf, "keep"), Int(-1)).Int?
        && Select(Extend(family, candidate), ParseLag(DefaultValue(Get(conf, "lag"), Str("0"))), separator + separator, pivotFor)
           == Ok(r.value.value)
      ensures r.Ok? && r.value.Some? && conf.Hash? && Get(conf, "type") != Str("once") ==>
        var plan := PrunePlan(Extend(family, candidate), r.value.value, DefaultValue(Get(conf, "keep"), Int(-1)).i);
        forall k :: 0 <= k < |plan| ==> Exec(DropArgv(aptly.cmd, plan[k])) in RunSince(aptly.tool.log, |old(aptly.tool.log)|)
      ensures r.Ok? && r.value.Some? && conf.Hash? && Get(conf, "type") != Str("once")
              && HasKey(conf, "snapshot") && Get(conf, "snapshot").Str? ==>
        initial == Some(Get(conf, "snapshot").s)
    {
      family, initial, sourced, candidate := [], None, aptly.tool.db, "";
      if !conf.Hash? {
        if conf.Str? {
          // String#[] answers `nil` or a substring, so the listing still runs.
          var _ := aptly.Snapshots();
        }
        return Err(Fault("NoMethodError: undefined method `key?'")), family, initial, sourced, candidate;
      }
      var kind := DefaultValue(Get(conf, "type"), Str("change"));
      var keep := DefaultValue(Get(conf, "keep"), Int(-1));
      var lag := DefaultValue(Get(conf, "lag"), Str("0"));
      var listing := aptly.Snapshots();
      var listed := Family(listing.value, prefix, separator);
      family := listed;
      if kind == Str("once") {
        return Ok(RubyIndex(listed, -1)), family, initial, sourced, candidate;
      }
      var given := ResolveInitial(prefix, conf);
      if given.Err? {
        return Err(given.error), family, initial, sourced, candidate;
      }
      initial, sourced := given.value, aptly.tool.db;
      if given.value.None? {
        return Ok(None), family, initial, sourced, candidate;
      }
      ghost var finishing := aptly.tool.log;
      var selected;
      selected, candidate := Finish(kind, listed, given.value.value, lag, keep);
      RunSinceNarrows(aptly.tool.log, |old(aptly.tool.log)|, |finishing|);
      if selected.Err? {
        return Err(selected.error), family, initial, sourced, candidate;
      }
      r := Ok(Some(selected.value));
    }

    /** The `merge` source of `resolve_snapshot_initial`: the sources are
        resolved and every one must give a snapshot to `snapshot merge`;
        `merged` are those snapshots, in the order of the sources. */
    method MergeSource(prefix: string, conf: Value) returns (r: Result<string, Error>, ghost merged: seq<string>)
      requires Valid() && conf.Hash? && HasKey(conf, "merge")
      modifies aptly, aptly.tool
      decreases conf, 1
      ensures Valid() && Kept(old(aptly.tool.db), aptly.tool.db)
      ensures |old(aptly.tool.log)| <= |aptly.tool.log|
      ensures r.Ok? ==> MergeItems(Get(conf, "merge")).Some? && |merged| == |MergeItems(Get(conf, "merge")).value|
      ensures r.Ok? ==>
        (r.value == aptly.NewName(prefix) && r.value in aptly.tool.db.snapshots
         && aptly.tool.db.snapshots[r.value].sources == merged
         && |aptly.tool.log| > 0 && aptly.tool.log[|aptly.tool.log| - 1] == Exec(MergeArgv(aptly.cmd, r.value, merged)))
      ensures r.Ok? && (forall n :: n in old(aptly.tool.db.names) ==> !StartsWith(n, prefix + separator))
              && ExplicitNames(MergeItems(Get(conf, "merge")).value).Some? ==>
        merged == ExplicitNames(MergeItems(Get(conf, "merge")).value).value
    {
      merged := [];
      var items := MergeItems(Get(conf, "merge"));
      if items.None? {
        return Err(Fault("merge sources are not a list")), merged;
      }
      MergeItemsBelow(conf);
      var sources :- ResolveSources(prefix, items.value, conf);
      var names := AllResolved(sources);
      if names.None? {
        return Err(Fault("TypeError: no implicit conversion of nil into String")), merged;
      }
      merged := names.value;
      var made :- aptly.Merge(prefix, names.value);
      r := Ok(made);
    }

    /** `conf['merge'].map.with_index`: each source is resolved in turn under
        `<prefix><separator><index>`. Sources set to snapshots by name, below
        a prefix no snapshot has yet, resolve to those names. */
    method ResolveSources(prefix: string, items: seq<Value>, ghost conf: Value) returns (r: Result<seq<Option<string>>, Error>)
      requires Valid() && forall k :: 0 <= k < |items| ==> items[k] < conf
      modifies aptly, aptly.tool
      decreases conf, 0
      ensures Valid() && Kept(old(aptly.tool.db), aptly.tool.db)
      ensures |old(aptly.tool.log)| <= |aptly.tool.log|
      ensures r.Ok? ==> |r.value| == |items|
      ensures (forall n :: n in old(aptly.tool.db.names) ==> !StartsWith(n, prefix + separator))
              && ExplicitNames(items).Some? ==>
        r.Ok? && aptly.tool.db == old(aptly.tool.db)
        && forall k :: 0 <= k < |items| ==> r.value[k] == Some(ExplicitNames(items).value[k])
    {
      ghost var quiet := forall n :: n in old(aptly.tool.db.names) ==> !StartsWith(n, prefix + separator);
      var sources: seq<Option<string>> := [];
      var i := 0;
      while i < |items|
        invariant 0 <= i <= |items| && |sources| == i
        invariant Valid() && Kept(old(aptly.tool.db), aptly.tool.db) && |old(aptly.tool.log)| <= |aptly.tool.log|
        invariant quiet && ExplicitNames(items).Some? ==>
          aptly.tool.db == old(aptly.tool.db)
          && forall j :: 0 <= j < i ==> sources[j] == Some(ExplicitNames(items).value[j])
      {
        if quiet && ExplicitNames(items).Some? {
          FamilyBelowEmpty(aptly.tool.db.names, prefix, separator, NatToString(i));
        }
        var source :- ResolveSource(prefix + separator + NatToString(i), items[i]);
        sources := sources + [source];
        i := i + 1;
      }
      r := Ok(sources);
    }

    /** `resolve_snapshot` as its callers (a merge source, a component)
        see it: what it keeps, and the answer for a configuration set to a
        snapshot by name. */
    method ResolveSource(prefix: string, conf: Value) returns (r: Result<Option<string>, Error>)
      requires Valid()
      modifies aptly, aptly.tool
      decreases conf, 4
      ensures Valid() && Kept(old(aptly.tool.db), aptly.tool.db)
      ensures |old(aptly.tool.log)| <= |aptly.tool.log|
      ensures ExplicitSnapshot(conf) && Family(old(aptly.tool.db.names), prefix, separator) == [] ==>
        r == Ok(Some(Get(conf, "snapshot").s)) && aptly.tool.db == old(aptly.tool.db)
    {
      var resolved, _, _, _, _ := ResolveSnapshot(prefix, conf);
      r := resolved;
    }

    /** `resolve_snapshot_initial`: the first of `snapshot`, `script`,
        `mirror`, `merge` and `repo` that is set decides where the snapshot
        comes from. */
    method ResolveInitial(prefix: string, conf: Value) returns (r: Result<Option<string>, Error>)
      requires Valid() && conf.Hash?
      modifies aptly, aptly.tool
      decreases conf, 2
      ensures Valid() && Kept(old(aptly.tool.db), aptly.tool.db)
      ensures |old(aptly.tool.log)| <= |aptly.tool.log|
      ensures HasKey(conf, "snapshot") && Get(conf, "snapshot").Str? ==>
        r == Ok(Some(Get(conf, "snapshot").s)) && aptly.tool.db == old(aptly.tool.db)
      ensures (!HasKey(conf, "snapshot") && !HasKey(conf, "script") && !HasKey(conf, "mirror")
               && !HasKey(conf, "merge") && !HasKey(conf, "repo")) ==> r == Ok(None) && aptly.tool.db == old(aptly.tool.db)
      ensures !HasKey(conf, "snapshot") && HasKey(conf, "script") && !HasKey(conf, "update") && Get(conf, "script").Str? ==>
        var text := SubstituteCommand(Get(conf, "script").s, aptly.cmd);
        var outcome := aptly.tool.scripts(text);
        aptly.tool.db == old(aptly.tool.db) && aptly.tool.log == old(aptly.tool.log) + [Invocation.Shell(text)]
        && r == if outcome.status != 0 then Err(Failed(RunError(Invocation.Shell(text), outcome.status, outcome.mixed)))
                else Ok(Some(Chomp(outcome.stdout)))
      ensures r.Ok? && !HasKey(conf, "snapshot") && HasKey(conf, "script") ==>
        Get(conf, "script").Str?
        && aptly.tool.scripts(SubstituteCommand(Get(conf, "script").s, aptly.cmd)).status == 0
        && r.value == Some(Chomp(aptly.tool.scripts(SubstituteCommand(Get(conf, "script").s, aptly.cmd)).stdout))
      ensures r.Ok? && r.value.Some? && !HasKey(conf, "snapshot") && !HasKey(conf, "script") ==>
        r.value.value == aptly.NewName(prefix) && r.value.value in aptly.tool.db.snapshots
    {
      if HasKey(conf, "snapshot") {
        var given := Get(conf, "snapshot");
        if given.Nil? {
          return Ok(None);
        }
        if !given.Str? {
          return Err(Fault("TypeError: snapshot name is not a String"));
        }
        return Ok(Some(given.s));
      } else if HasKey(conf, "script") {
        if HasKey(conf, "update") {
          var update := Get(conf, "update");
          if !update.Str? {
            return Err(Fault("TypeError: mirror name is not a String"));
          }
          var _ :- aptly.UpdateMirror([update.s]);
        }
        var script := Get(conf, "script");
        if !script.Str? {
          return Err(Fault("NoMethodError: undefined method `gsub!'"));
        }
        var out :- aptly.Script(script.s);
        return Ok(Some(out));
      } else if HasKey(conf, "mirror") {
        var mirror := Get(conf, "mirror");
        if !mirror.Str? {
          return Err(Fault("TypeError: mirror name is not a String"));
        }
        var made :- aptly.CreateSnapshotMirror(mirror.s, prefix);
        return Ok(Some(made));
      } else if HasKey(conf, "merge") {
        var made, _ :- MergeSource(prefix, conf);
        return Ok(Some(made));
      } else if HasKey(conf, "repo") {
        var repo := Get(conf, "repo");
        if !repo.Str? {
          return Err(Fault("TypeError: repo name is not a String"));
        }
        var made :- aptly.CreateSnapshotRepo(repo.s, prefix);
        return Ok(Some(made));
      }
      r := Ok(None);
    }

    /** `publish`: resolves every component in the order of the
        configuration, then the name script (so that it runs with the mirrors
        already updated), then publishes `name` with `published`. A point
        without components is skipped. */
    method Publish(point: string, config: Value) returns (r: Result<(), Error>, ghost name: string, ghost published: seq<(string, string)>)
      requires Valid()
      modifies aptly, aptly.tool
      ensures Valid()
      ensures !config.Hash? ==> r.Err? && aptly.tool.db == old(aptly.tool.db)
      ensures config.Hash? && !HasKey(config, "components") ==>
        r.Ok? && aptly.tool.db == old(aptly.tool.db) && aptly.tool.log == old(aptly.tool.log)
      ensures r.Ok? && config.Hash? && HasKey(config, "components") ==>
        Get(config, "components").Hash?
        && (!HasKey(config, "name") ==> name == point)
        && (HasKey(config, "name") ==>
              (Get(config, "name").Str?
               && name == Chomp(aptly.tool.scripts(SubstituteCommand(Get(config, "name").s, aptly.cmd)).stdout)))
        && SplitPath(name).Some?
        && |published| == |Get(config, "components").entries|
        && (forall j :: 0 <= j < |published| ==> published[j].0 == Get(config, "components").entries[j].0)
        && Serves(aptly.tool.db.points, PointKey(SplitPath(name).value.0, SplitPath(name).value.1), Names(published))
      ensures r.Ok? && config.Hash? && HasKey(config, "components") ==>
        var (prefix, distribution) := SplitPath(name).value;
        PointKey(prefix, distribution) !in PointKeys(old(aptly.tool.db.points)) ==>
          JoinArchitectures(PublishArchitectures(config)).Ok? && |aptly.tool.log| > 0
          && aptly.tool.log[|aptly.tool.log| - 1]
             == Exec(CreatePublishArgv(aptly.cmd, prefix, distribution, published, [JoinArchitectures(PublishArchitectures(config)).value]))
    {
      name, published := point, [];
      if !config.Hash? {
        return Err(Fault("NoMethodError: undefined method `key?'")), name, published;
      }
      if !HasKey(config, "components") {
        return Ok(()), name, published;
      }
      var components := Get(config, "components");
      if !components.Hash? {
        return Err(Fault("components are not a Hash")), name, published;
      }
      var toPublish :- ResolveComponents(point, components.entries);
      r, name, published := PublishAs(point, config, toPublish);
    }

    /** `config['components'].map`: every component is resolved in turn under
        `<point><separator><component>`, in the order of the configuration. */
    method ResolveComponents(point: string, entries: seq<(string, Value)>) returns (r: Result<seq<(string, Option<string>)>, Error>)
      requires Valid()
      modifies aptly, aptly.tool
      ensures Valid() && Kept(old(aptly.tool.db), aptly.tool.db)
      ensures r.Ok? ==> |r.value| == |entries| && forall j :: 0 <= j < |entries| ==> r.value[j].0 == entries[j].0
    {
      var toPublish: seq<(string, Option<string>)> := [];
      var k := 0;
      while k < |entries|
        invariant 0 <= k <= |entries| && |toPublish| == k
        invariant Valid() && Kept(old(aptly.tool.db), aptly.tool.db)
        invariant forall j :: 0 <= j < k ==> toPublish[j].0 == entries[j].0
      {
        var (component, cconfig) := entries[k];
        var resolved :- ResolveSource(point + separator + component, cconfig);
        toPublish := toPublish + [(component, resolved)];
        k := k + 1;
      }
      r := Ok(toPublish);
    }

    /** The end of `publish`: the name script, if any, names the point, which
        is published with the resolved components and, when it is created,
        the configured architectures or `all`. */
    method PublishAs(point: string, config: Value, toPublish: seq<(string, Option<string>)>)
      returns (r: Result<(), Error>, ghost name: string, ghost published: seq<(string, string)>)
      requires Valid() && config.Hash?
      modifies aptly.tool
      ensures Valid() && aptly.tool.db.snapshots == old(aptly.tool.db.snapshots)
      ensures r.Ok? ==>
        (!HasKey(config, "name") ==> name == point)
        && (HasKey(config, "name") ==>
              (Get(config, "name").Str?
               && name == Chomp(aptly.tool.scripts(SubstituteCommand(Get(config, "name").s, aptly.cmd)).stdout)))
        && SplitPath(name).Some? && Resolved(toPublish).Some? && published == Resolved(toPublish).value
      ensures r.Ok? ==>
        var (prefix, distribution) := SplitPath(name).value;
        Serves(aptly.tool.db.points, PointKey(prefix, distribution), Names(published))
        && (PointKey(prefix, distribution) !in PointKeys(old(aptly.tool.db.points)) ==>
              JoinArchitectures(PublishArchitectures(config)).Ok? && |aptly.tool.log| > 0
              && aptly.tool.log[|aptly.tool.log| - 1]
                 == Exec(CreatePublishArgv(aptly.cmd, prefix, distribution, published,
                                           [JoinArchitectures(PublishArchitectures(config)).value])))
    {
      name, published := point, [];
      var architectures := PublishArchitectures(config);
      var path := point;
      if HasKey(config, "name") {
        var script := Get(config, "name");
        if !script.Str? {
          return Err(Fault("NoMethodError: undefined method `gsub!'")), name, published;
        }
        path :- aptly.Script(script.s);
      }
      name := path;
      r := aptly.Publish(path, toPublish, architectures);
      if r.Ok? {
        published := Resolved(toPublish).value;
      }
    }

    /** `mirror`: creates the mirror unless it exists. */
    method Mirror(name: string, config: Value) returns (r: Result<(), Error>)
      requires Valid()
      modifies aptly.tool
      ensures Valid()
      ensures name in old(aptly.tool.db.mirrors) ==> r == Ok(()) && aptly.tool.db == old(aptly.tool.db)
      ensures r.Ok? ==> name in aptly.tool.db.mirrors
    {
      r := aptly.CreateMirror(name, config);
    }
  }
}
