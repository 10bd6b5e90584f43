/** The older stand-alone update script: the same resolution of components
    into snapshots as the engine, written as one procedure over globals. The
    snapshot and publishing-point listings are taken once at the start and
    never refreshed; snapshots that `keep` condemns are only collected and
    dropped after every point is published; scripts run as given, without
    the `##APTLY##` placeholder. */
module Legacy {
  import opened Wrappers
  import opened Text
  import opened Values
  import opened Order
  import opened Protocol
  import opened Tool
  import opened Gateway
  import opened Resolve
  import opened Engine

  /** What the `lag` setting leaves: the snapshot to publish (`nil` is
      possible) and the family members still counted as old. */
  datatype Lagged = Lagged(snapshot: Option<string>, older: seq<string>)

  /** The Integer form of a version lag `n`: `existing[-n]` when there is
      one, and then the last `n` are no longer old (a negative count makes
      `pop` raise); otherwise the oldest existing snapshot, or `nil` when
      there is none, and nothing is old any more. */
  function LagVersions(existing: seq<string>, snapshot: Option<string>, n: int): (r: Result<Lagged, Error>)
    ensures 0 < n <= |existing| ==> r == Ok(Lagged(Some(existing[|existing| - n]), existing[..|existing| - n]))
    ensures n == 0 && |existing| > 0 ==> r == Ok(Lagged(Some(existing[0]), existing))
    ensures -|existing| < n < 0 ==> r.Err?
    ensures (n > |existing| || n <= -|existing|) ==>
      r == Ok(Lagged(if |existing| > 0 then Some(existing[0]) else None, []))
  {
    match RubyIndex(existing, -n)
    case Some(s) =>
      if n < 0 then Err(Fault("ArgumentError: negative array size"))
      else
        assert existing[..|existing| - 0] == existing;
        Ok(Lagged(Some(s), existing[..|existing| - n]))
    case None =>
      Ok(Lagged(if |existing| > 0 then Some(existing[0]) else None, []))
  }

  /** The time form of the lag: the newest existing snapshot stamped no later
      than the pivot, the ones before it staying old; with none, the oldest
      existing snapshot (or the resolved one when none exists) and nothing
      old. A name without a stamp makes the comparison raise. */
  function LagSeconds(existing: seq<string>, snapshot: Option<string>, marker: string, pivot: string): (r: Result<Lagged, Error>)
    ensures r.Ok? <==> forall k :: 0 <= k < |existing| ==> Stamp(existing[k], marker).Some?
    ensures r.Ok? && r.value.snapshot != (if |existing| > 0 then Some(existing[0]) else snapshot) ==>
      r.value.snapshot.Some? && LastDue(existing, marker, pivot, r.value.snapshot.value)
    ensures r.Ok? && (exists k :: 0 <= k < |existing| && Due(existing[k], marker, pivot)) ==>
      r.value.snapshot.Some? && LastDue(existing, marker, pivot, r.value.snapshot.value)
    ensures r.Ok? ==> forall n :: n in r.value.older ==> n in existing && Due(n, marker, pivot)
    ensures r.Ok? ==> var due := DueNames(existing, marker, pivot);
      if due == [] then r.value.older == []
      else r.value.snapshot.Some? && r.value.older + [r.value.snapshot.value] == due
  {
    var oldest := if |existing| > 0 then Some(existing[0]) else snapshot;
    var due :- Candidates(existing, marker, pivot);
    if |due| > 0 then
      LastCandidateIsLastDue(existing, marker, pivot);
      assert due[..|due| - 1] + [due[|due| - 1]] == due;
      Ok(Lagged(Some(due[|due| - 1]), due[..|due| - 1]))
    else
      assert forall k :: 0 <= k < |existing| ==> existing[k] in existing;
      Ok(Lagged(oldest, []))
  }

  /** The `lag` step of the script. "0", "0v" and "0s" change nothing; a
      String "<n>v" keeps its count as a String, which cannot index the
      family, and raises; an Integer counts versions; "<n>s" counts seconds;
      anything else changes nothing. */
  function ApplyLag(existing: seq<string>, snapshot: Option<string>, lag: Value,
                    marker: string, pivotFor: nat -> string): (r: Result<Lagged, Error>)
    ensures lag == Str("0") || lag == Str("0v") || lag == Str("0s") ==> r == Ok(Lagged(snapshot, existing))
    ensures lag.Str? && CountWithUnit(lag.s, 'v') && lag.s != "0v" ==> r.Err?
    ensures lag.Int? ==> r == LagVersions(existing, snapshot, lag.i)
    ensures lag.Str? && CountWithUnit(lag.s, 's') && lag.s != "0s" ==>
      r == LagSeconds(existing, snapshot, marker, pivotFor(ParseNat(lag.s[..|lag.s| - 1])))
    ensures !lag.Int? && !(lag.Str? && (CountWithUnit(lag.s, 'v') || CountWithUnit(lag.s, 's'))) ==>
      r == Ok(Lagged(snapshot, existing))
  {
    if lag == Str("0") || lag == Str("0v") || lag == Str("0s") then Ok(Lagged(snapshot, existing))
    else match lag
      case Int(n) => LagVersions(existing, snapshot, n)
      case Str(s) =>
        if CountWithUnit(s, 'v') then Err(Fault("TypeError: no implicit conversion of String into Integer"))
        else if CountWithUnit(s, 's') then LagSeconds(existing, snapshot, marker, pivotFor(ParseNat(s[..|s| - 1])))
        else Ok(Lagged(snapshot, existing))
      case _ => Ok(Lagged(snapshot, existing))
  }

  /** What the `keep` loop condemns: the oldest of the old snapshots, until
      `keep` of them remain; a negative `keep` condemns nothing. */
  function Doomed(older: seq<string>, keep: int): (r: seq<string>)
    ensures keep < 0 ==> r == []
    ensures |r| <= |older| && r == older[..|r|]
    ensures keep >= 0 ==> |older| - |r| == if |older| < keep then |older| else keep
  {
    if keep < 0 || |older| <= keep then [] else older[..|older| - keep]
  }

  /** In a sorted family every condemned snapshot is no newer than every
      spared one. */
  lemma DoomedOldestFirst(older: seq<string>, keep: int)
    requires Sorted(older)
    ensures var doomed := Doomed(older, keep);
      forall i, j :: 0 <= i < |doomed| <= j < |older| ==> AtMost(doomed[i], older[j])
  {
  }

  /** The engine prunes the same way, from the snapshots older than the
      selected one. */
  lemma PrunePlanIsDoomed(ext: seq<string>, selected: string, keep: int)
    ensures PrunePlan(ext, selected, keep) == Doomed(Older(ext, selected), keep)
  {
  }

  /** Where the two scripts agree: when the family, with the resolved
      snapshot last, has more than `n` versions, an Integer lag of `n >= 1`
      selects the snapshot the engine selects, and only the versions before
      it stay old. */
  lemma VersionLagAgrees(ext: seq<string>, n: int, marker: string, pivotFor: nat -> string)
    requires 1 <= n < |ext|
    ensures ApplyLag(ext[..|ext| - 1], Some(ext[|ext| - 1]), Int(n), marker, pivotFor)
         == Ok(Lagged(Some(ext[|ext| - 1 - n]), ext[..|ext| - 1 - n]))
    ensures Select(ext, ParseLag(Int(n)), marker, pivotFor) == Ok(ext[|ext| - 1 - n])
  {
    assert ext[..|ext| - 1][..|ext| - 1 - n] == ext[..|ext| - 1 - n];
  }

  /** Where they part: an Integer lag of 0 is not one of the strings that
      mean "no lag", so the script takes `existing[0]`, the oldest snapshot,
      where the engine keeps the newest. */
  lemma ZeroVersionsIsOldest(ext: seq<string>, marker: string, pivotFor: nat -> string)
    requires |ext| >= 2
    ensures ApplyLag(ext[..|ext| - 1], Some(ext[|ext| - 1]), Int(0), marker, pivotFor)
         == Ok(Lagged(Some(ext[0]), ext[..|ext| - 1]))
    ensures Select(ext, ParseLag(Int(0)), marker, pivotFor) == Ok(ext[|ext| - 1])
  {
  }

  /** With no earlier snapshot in the family, an Integer lag leaves nothing
      to publish, whatever was resolved. */
  lemma VersionLagWithoutHistory(snapshot: Option<string>, n: int, marker: string, pivotFor: nat -> string)
    ensures ApplyLag([], snapshot, Int(n), marker, pivotFor) == Ok(Lagged(None, []))
  {
  }

  /** A configuration that names a source of its snapshot. */
  predicate Recognized(conf: Value) {
    conf.Hash? && (HasKey(conf, "snapshot") || HasKey(conf, "script") || HasKey(conf, "mirror")
                   || HasKey(conf, "merge") || HasKey(conf, "repo"))
  }

  /** A component pinned to a snapshot by name, with no lag and an Integer
      `keep` if any: with an empty family it resolves to that name. */
  predicate Pinned(conf: Value) {
    conf.Hash? && HasKey(conf, "snapshot") && Get(conf, "snapshot").Str? && !HasKey(conf, "lag")
    && (!HasKey(conf, "keep") || Get(conf, "keep").Int?)
  }

  /** The snapshot names `items` are pinned to, when every one is pinned. */
  function PinnedNames(items: seq<Value>): (r: Option<seq<string>>)
    ensures r.Some? <==> forall k :: 0 <= k < |items| ==> Pinned(items[k])
    ensures r.Some? ==> |r.value| == |items| && forall k :: 0 <= k < |items| ==> r.value[k] == Get(items[k], "snapshot").s
  {
    if items == [] then Some([])
    else if !Pinned(items[0]) then None
    else match PinnedNames(items[1..])
      case None => None
      case Some(rest) => Some([Get(items[0], "snapshot").s] + rest)
  }

  /** Where the first step of `resolve_snapshot` leaves a component: without
      a recognised source, or with the snapshot its source gave (`nil` is
      possible). */
  datatype Initial = Unrecognized | From(snapshot: Option<string>)

  /** Where the `type` step leaves a component: the snapshot, the family
      members still in play, and the previous snapshot it looked up (`prev`,
      never set for `everytime`). */
  datatype Typed = Typed(snapshot: Option<string>, existing: seq<string>, prev: Option<string>)

  /** What the `type` step can leave, whatever the contents: `everytime`
      and an empty family keep the snapshot; `once` takes the newest and
      forgets it; `change` keeps the snapshot, or takes the newest and
      forgets it unless the snapshot was the newest already. */
  predicate TypeStep(kind: Value, snapshot: Option<string>, existing: seq<string>, typed: Typed) {
    if kind == Str("everytime") || existing == [] then
      typed == Typed(snapshot, existing, None)
    else
      var newest, rest := existing[|existing| - 1], existing[..|existing| - 1];
      if kind == Str("once") then
        typed == Typed(Some(newest), rest, Some(newest))
      else
        typed == Typed(snapshot, existing, Some(newest))
        || typed == Typed(Some(newest), if snapshot == Some(newest) then existing else rest, Some(newest))
  }

  /** A setting as the script reads it: `conf[key]` when the key is
      present, the default otherwise. */
  function Given(conf: Value, key: string, default: Value): Value {
    if HasKey(conf, key) then Get(conf, key) else default
  }

  class LegacyRun {
    const separator: string
    /** The command gateway; its own separator is the doubled one, so that
        the snapshots it names are those the script names. */
    const aptly: Aptly
    /** The time `n` seconds before now, in the timestamp format. */
    const pivotFor: nat -> string
    /** `$snapshots`: the snapshot listing taken at the start. */
    var snapshots: seq<string>
    /** `$publish`: the publishing-point listing taken at the start. */
    var points: seq<string>
    /** `$ss_to_drop`: the snapshots to drop once everything is published. */
    var toDrop: seq<string>

    ghost predicate Valid()
      reads this, aptly, aptly.tool
    {
      aptly.Valid() && aptly.separator == separator + separator
    }

    constructor (separator: string, aptly: Aptly, pivotFor: nat -> string)
      requires aptly.separator == separator + separator
      ensures this.separator == separator && this.aptly == aptly && this.pivotFor == pivotFor
      ensures snapshots == [] && points == [] && toDrop == []
    {
      this.separator := separator;
      this.aptly := aptly;
      this.pivotFor := pivotFor;
      snapshots := [];
      points := [];
      toDrop := [];
    }

    /** `script`: runs the text as given and answers its standard output
        without the trailing line break; a non-zero exit raises with the
        interleaved output. */
    method Script(text: string) returns (r: Result<string, Error>)
      requires Valid()
      modifies aptly.tool
      ensures Valid() && aptly.tool.db == old(aptly.tool.db)
      ensures aptly.tool.log == old(aptly.tool.log) + [Invocation.Shell(text)]
      ensures var outcome := aptly.tool.scripts(text);
        r == if outcome.status != 0
             then Err(Failed(RunError(Invocation.Shell(text), outcome.status, outcome.mixed)))
             else Ok(Chomp(outcome.stdout))
    {
      var outcome := aptly.tool.RunScript(text);
      if outcome.status != 0 {
        return Err(Failed(RunError(Invocation.Shell(text), outcome.status, outcome.mixed)));
      }
      r := Ok(Chomp(outcome.stdout));
    }

    /** The `keep` step: a non-Integer `keep` cannot be compared with 0; the
        loop moves the oldest old snapshots to the drop list, and its log
        line reads `prev[0]`, which raises when no previous snapshot was
        looked up (type `everytime`) or there was none. */
    method Keep(older: seq<string>, prev: Option<string>, keep: Value) returns (r: Result<(), Error>)
      requires Valid()
      modifies this
      ensures Valid() && snapshots == old(snapshots) && points == old(points)
      ensures r.Ok? <==> keep.Int? && (prev.Some? || Doomed(older, keep.i) == [])
      ensures r.Ok? ==> toDrop == old(toDrop) + Doomed(older, keep.i)
      ensures r.Err? ==> toDrop == old(toDrop)
    {
      if !keep.Int? {
        return Err(Fault("NoMethodError: undefined method `>=' for the keep setting"));
      }
      if keep.i >= 0 {
        var rest := older;
        while |rest| > keep.i
          invariant Valid() && snapshots == old(snapshots) && points == old(points)
          invariant |rest| <= |older| && rest == older[|older| - |rest|..]
          invariant |rest| >= if |older| > keep.i then keep.i else |older|
          invariant prev.None? ==> |rest| == |older|
          invariant toDrop == old(toDrop) + older[..|older| - |rest|]
        {
          if prev.None? {
            return Err(Fault("NoMethodError: undefined method `[]' for nil"));
          }
          toDrop := toDrop + [rest[0]];
          assert older[..|older| - |rest| + 1] == older[..|older| - |rest|] + [rest[0]];
          rest := rest[1..];
        }
      }
      r := Ok(());
    }

    /** `resolve_snapshot`: the source first, then the type, the lag and
        the keep settings, against the family as listed at the start.
        `initial` is what the source gave, `typed` and `lagged` what the
        type and lag steps left. */
    method ResolveSnapshot(prefix: string, conf: Value)
      returns (r: Result<Option<string>, Error>, ghost initial: Initial, ghost typed: Typed, ghost lagged: Lagged)
      requires Valid()
      modifies this, aptly, aptly.tool
      decreases conf, 3
      ensures Valid() && Kept(old(aptly.tool.db), aptly.tool.db)
      ensures snapshots == old(snapshots) && points == old(points) && old(toDrop) <= toDrop
      ensures !conf.Hash? ==> r.Err? && aptly.tool.db == old(aptly.tool.db) && toDrop == old(toDrop)
      ensures conf.Hash? && !Recognized(conf) ==>
        r == Ok(None) && aptly.tool.db == old(aptly.tool.db) && toDrop == old(toDrop)
      ensures Recognized(conf) && HasKey(conf, "keep") && !Get(conf, "keep").Int? ==> r.Err?
      ensures Recognized(conf) && HasKey(conf, "type") && Get(conf, "type") == Str("once") && !HasKey(conf, "lag") && r.Ok?
              && |Family(snapshots, prefix, separator)| > 0 ==>
        var family := Family(snapshots, prefix, separator);
        r.value == Some(family[|family| - 1])
      ensures Pinned(conf) && Family(snapshots, prefix, separator) == [] ==>
        r == Ok(Some(Get(conf, "snapshot").s)) && aptly.tool.db == old(aptly.tool.db) && toDrop == old(toDrop)
      ensures r.Ok? && Recognized(conf) ==>
        var keep := Given(conf, "keep", Int(-1));
        var doomed := Doomed(lagged.older, keep.i);
        initial.From? && keep.Int?
        && TypeStep(Given(conf, "type", Str("change")), initial.snapshot, Family(snapshots, prefix, separator), typed)
        && ApplyLag(typed.existing, typed.snapshot, Given(conf, "lag", Str("0")), separator + separator, pivotFor) == Ok(lagged)
        && r.value == lagged.snapshot
        && |doomed| <= |toDrop| && toDrop[|toDrop| - |doomed|..] == doomed
      ensures r.Ok? && HasKey(conf, "snapshot") && Get(conf, "snapshot").Str? ==>
        initial == From(Some(Get(conf, "snapshot").s))
      ensures r.Ok? && conf.Hash? && !HasKey(conf, "snapshot") && HasKey(conf, "script") ==>
        Get(conf, "script").Str? && initial == From(Some(Chomp(aptly.tool.scripts(Get(conf, "script").s).stdout)))
    {
      typed, lagged := Typed(None, [], None), Lagged(None, []);
      var sourced := Source(prefix, conf);
      if sourced.Err? {
        return Err(sourced.error), Unrecognized, typed, lagged;
      }
      initial := sourced.value;
      if sourced.value.Unrecognized? {
        return Ok(None), initial, typed, lagged;
      }
      var kind := Given(conf, "type", Str("change"));
      var keep := Given(conf, "keep", Int(-1));
      var lag := Given(conf, "lag", Str("0"));
      ghost var before := toDrop;
      r, typed, lagged := Settle(Family(snapshots, prefix, separator), sourced.value.snapshot, kind, lag, keep);
      if r.Ok? {
        assert toDrop[|toDrop| - |Doomed(lagged.older, keep.i)|..] == Doomed(lagged.older, keep.i);
      }
    }

    /** The rest of `resolve_snapshot`, once the source gave `snapshot`:
        the type, the lag and the keep steps against the family. `typed`
        and `lagged` are what the type and lag steps left; the snapshots
        the keep step condemns are queued on `toDrop`. */
    method Settle(family: seq<string>, snapshot: Option<string>, kind: Value, lag: Value, keep: Value)
      returns (r: Result<Option<string>, Error>, ghost typed: Typed, ghost lagged: Lagged)
      requires Valid()
      modifies this, aptly.tool
      ensures Valid() && Kept(old(aptly.tool.db), aptly.tool.db)
      ensures snapshots == old(snapshots) && points == old(points) && old(toDrop) <= toDrop
      ensures !keep.Int? ==> r.Err?
      ensures kind == Str("once") && lag == Str("0") && r.Ok? && |family| > 0 ==> r.value == Some(family[|family| - 1])
      ensures family == [] && lag == Str("0") && keep.Int? ==>
        r == Ok(snapshot) && aptly.tool.db == old(aptly.tool.db) && toDrop == old(toDrop)
      ensures r.Ok? ==>
        keep.Int? && TypeStep(kind, snapshot, family, typed)
        && ApplyLag(typed.existing, typed.snapshot, lag, separator + separator, pivotFor) == Ok(lagged)
        && r.value == lagged.snapshot && toDrop == old(toDrop) + Doomed(lagged.older, keep.i)
      ensures r.Ok? && kind != Str("everytime") && kind != Str("once") && family != [] ==>
        var newest := family[|family| - 1];
        snapshot.Some? && snapshot.value in old(aptly.tool.db.snapshots) && newest in old(aptly.tool.db.snapshots)
        && ((old(aptly.tool.db.snapshots)[snapshot.value].content != old(aptly.tool.db.snapshots)[newest].content)
            <==> (typed.snapshot == snapshot && snapshot != Some(newest)))
    {
      typed, lagged := Typed(None, [], None), Lagged(None, []);
      var applied := ApplyType(kind, snapshot, family);
      if applied.Err? {
        return Err(applied.error), typed, lagged;
      }
      typed := applied.value;
      var lagResult := ApplyLag(applied.value.existing, applied.value.snapshot, lag, separator + separator, pivotFor);
      if lagResult.Err? {
        return Err(lagResult.error), typed, lagged;
      }
      lagged := lagResult.value;
      var kept := Keep(lagResult.value.older, applied.value.prev, keep);
      if kept.Err? {
        return Err(kept.error), typed, lagged;
      }
      r := Ok(lagResult.value.snapshot);
    }

    /** The `type` step: `everytime` keeps the snapshot; `once` drops it
        and takes the newest of the family instead, when there is one; any
        other type deduplicates it against the newest of the family, which
        then no longer counts as old if it is the one kept. */
    method ApplyType(kind: Value, snapshot: Option<string>, existing: seq<string>) returns (r: Result<Typed, Error>)
      requires Valid()
      modifies aptly.tool
      ensures Valid() && Kept(old(aptly.tool.db), aptly.tool.db)
      ensures kind == Str("everytime") ==> r == Ok(Typed(snapshot, existing, None))
      ensures r.Ok? && kind != Str("everytime") ==> r.value.prev == RubyIndex(existing, -1)
      ensures r.Ok? ==> TypeStep(kind, snapshot, existing, r.value)
      ensures r.Ok? ==> r.value.existing == existing || (|existing| > 0 && r.value.existing == existing[..|existing| - 1])
      ensures kind == Str("once") && |existing| > 0 && r.Ok? ==>
        r.value == Typed(Some(existing[|existing| - 1]), existing[..|existing| - 1], Some(existing[|existing| - 1]))
      ensures existing == [] ==>
        r == Ok(Typed(snapshot, existing, if kind == Str("everytime") then None else RubyIndex(existing, -1)))
        && aptly.tool.db == old(aptly.tool.db)
      ensures kind == Str("once") && existing != [] && r.Ok? ==>
        snapshot.Some? && Retained(aptly.tool.db, snapshot.value)
        && Exec(DropArgv(aptly.cmd, snapshot.value)) in RunSince(aptly.tool.log, |old(aptly.tool.log)|)
      ensures kind != Str("everytime") && kind != Str("once") && existing != [] && r.Ok? ==>
        var newest := existing[|existing| - 1];
        snapshot.Some? && snapshot.value in old(aptly.tool.db.snapshots) && newest in old(aptly.tool.db.snapshots)
        && (old(aptly.tool.db.snapshots)[snapshot.value].content != old(aptly.tool.db.snapshots)[newest].content ==>
              r.value == Typed(snapshot, existing, Some(newest)) && aptly.tool.db == old(aptly.tool.db))
        && (old(aptly.tool.db.snapshots)[snapshot.value].content == old(aptly.tool.db.snapshots)[newest].content ==>
              r.value.snapshot == Some(newest) && r.value.prev == Some(newest)
              && r.value.existing == (if snapshot.value == newest then existing else existing[..|existing| - 1])
              && Retained(aptly.tool.db, snapshot.value)
              && Exec(DropArgv(aptly.cmd, snapshot.value)) in RunSince(aptly.tool.log, |old(aptly.tool.log)|))
    {
      if kind == Str("everytime") {
        return Ok(Typed(snapshot, existing, None));
      }
      var prev := RubyIndex(existing, -1);
      if prev.None? {
        return Ok(Typed(snapshot, existing, prev));
      }
      if snapshot.None? {
        return Err(Fault("TypeError: no implicit conversion of nil into String"));
      }
      if kind == Str("once") {
        var _ :- aptly.DropSnapshot(snapshot.value);
        return Ok(Typed(prev, existing[..|existing| - 1], prev));
      }
      var kept :- aptly.SnapshotDedup(snapshot.value, prev);
      if Some(kept) != snapshot {
        return Ok(Typed(Some(kept), existing[..|existing| - 1], prev));
      }
      r := Ok(Typed(snapshot, existing, prev));
    }

    /** The first step of `resolve_snapshot`: the first of `snapshot`,
        `script`, `mirror`, `merge` and `repo` that is set gives the
        snapshot; a value of the wrong kind raises. */
    method Source(prefix: string, conf: Value) returns (r: Result<Initial, Error>)
      requires Valid()
      modifies this, aptly, aptly.tool
      decreases conf, 2
      ensures Valid() && Kept(old(aptly.tool.db), aptly.tool.db)
      ensures snapshots == old(snapshots) && points == old(points) && old(toDrop) <= toDrop
      ensures !conf.Hash? ==> r.Err? && aptly.tool.db == old(aptly.tool.db) && toDrop == old(toDrop)
      ensures conf.Hash? && !Recognized(conf) ==>
        r == Ok(Unrecognized) && aptly.tool.db == old(aptly.tool.db) && toDrop == old(toDrop)
      ensures r.Ok? && Recognized(conf) ==> r.value.From?
      ensures HasKey(conf, "snapshot") && Get(conf, "snapshot").Str? ==>
        r == Ok(From(Some(Get(conf, "snapshot").s))) && aptly.tool.db == old(aptly.tool.db) && toDrop == old(toDrop)
      ensures conf.Hash? && !HasKey(conf, "snapshot") && HasKey(conf, "script") && !HasKey(conf, "update") && Get(conf, "script").Str? ==>
        var outcome := aptly.tool.scripts(Get(conf, "script").s);
        aptly.tool.db == old(aptly.tool.db) && aptly.tool.log == old(aptly.tool.log) + [Invocation.Shell(Get(conf, "script").s)]
        && r == if outcome.status != 0 then Err(Failed(RunError(Invocation.Shell(Get(conf, "script").s), outcome.status, outcome.mixed)))
                else Ok(From(Some(Chomp(outcome.stdout))))
      ensures r.Ok? && !HasKey(conf, "snapshot") && HasKey(conf, "script") ==>
        Get(conf, "script").Str? && aptly.tool.scripts(Get(conf, "script").s).status == 0
        && r.value == From(Some(Chomp(aptly.tool.scripts(Get(conf, "script").s).stdout)))
      ensures r.Ok? && r.value.From? && r.value.snapshot.Some? && !HasKey(conf, "snapshot") && !HasKey(conf, "script") ==>
        r.value.snapshot.value == aptly.NewName(prefix) && r.value.snapshot.value in aptly.tool.db.snapshots
    {
      if !conf.Hash? {
        return Err(Fault("NoMethodError: undefined method `has_key?'"));
      }
      if HasKey(conf, "snapshot") {
        var given := Get(conf, "snapshot");
        if given.Nil? {
          return Ok(From(None));
        }
        if !given.Str? {
          return Err(Fault("TypeError: snapshot name is not a String"));
        }
        return Ok(From(Some(given.s)));
      } else if HasKey(conf, "script") {
        var out :- ScriptSource(conf);
        return Ok(From(Some(out)));
      } else if HasKey(conf, "mirror") {
        var mirror := Get(conf, "mirror");
        if !mirror.Str? {
          return Err(Fault("TypeError: mirror name is not a String"));
        }
        var made :- aptly.CreateSnapshotMirror(mirror.s, prefix);
        return Ok(From(Some(made)));
      } else if HasKey(conf, "merge") {
        var made, _ :- MergeSource(prefix, conf);
        return Ok(From(Some(made)));
      } else if HasKey(conf, "repo") {
        var repo := Get(conf, "repo");
        if !repo.Str? {
          return Err(Fault("TypeError: repo name is not a String"));
        }
        var made :- aptly.CreateSnapshotRepo(repo.s, prefix);
        return Ok(From(Some(made)));
      }
      r := Ok(Unrecognized);
    }

    /** The `script` source: the mirrors named under `update` (one name or a
        list) are updated first, then the script's chomped output names the
        snapshot. */
    method ScriptSource(conf: Value) returns (r: Result<string, Error>)
      requires Valid() && conf.Hash?
      modifies aptly, aptly.tool
      ensures Valid() && aptly.tool.db.names == old(aptly.tool.db.names)
      ensures aptly.tool.db.snapshots == old(aptly.tool.db.snapshots) && aptly.tool.db.points == old(aptly.tool.db.points)
      ensures !Get(conf, "script").Str? ==> r.Err?
      ensures r.Ok? ==> (Get(conf, "script").Str? && |aptly.tool.log| > 0 &&
        aptly.tool.log[|aptly.tool.log| - 1] == Invocation.Shell(Get(conf, "script").s) &&
        aptly.tool.scripts(Get(conf, "script").s).status == 0 &&
        r.value == Chomp(aptly.tool.scripts(Get(conf, "script").s).stdout))
      ensures !HasKey(conf, "update") && Get(conf, "script").Str? ==>
        var outcome := aptly.tool.scripts(Get(conf, "script").s);
        aptly.tool.db == old(aptly.tool.db) && aptly.tool.log == old(aptly.tool.log) + [Invocation.Shell(Get(conf, "script").s)]
        && r == if outcome.status != 0 then Err(Failed(RunError(Invocation.Shell(Get(conf, "script").s), outcome.status, outcome.mixed)))
                else Ok(Chomp(outcome.stdout))
    {
      if HasKey(conf, "update") {
        var update := Get(conf, "update");
        var mirrors: seq<Value>;
        if update.Str? {
          mirrors := [update];
        } else if update.List? {
          mirrors := update.items;
        } else if update == Hash([]) {
          mirrors := [];
        } else {
          return Err(Fault("NoMethodError: undefined method `each'"));
        }
        var i := 0;
        while i < |mirrors|
          invariant 0 <= i <= |mirrors|
          invariant Valid() && aptly.tool.db.names == old(aptly.tool.db.names)
          invariant aptly.tool.db.snapshots == old(aptly.tool.db.snapshots) && aptly.tool.db.points == old(aptly.tool.db.points)
        {
          if !mirrors[i].Str? {
            return Err(Fault("TypeError: mirror name is not a String"));
          }
          var _ :- aptly.UpdateMirror([mirrors[i].s]);
          i := i + 1;
        }
      }
      var script := Get(conf, "script");
      if !script.Str? {
        return Err(Fault("TypeError: script is not a String"));
      }
      r := Script(script.s);
    }

    /** The `merge` source: the sources are resolved and every one must give
        a snapshot to `snapshot merge`; `merged` are those snapshots, in the
        order of the sources. */
    method MergeSource(prefix: string, conf: Value) returns (r: Result<string, Error>, ghost merged: seq<string>)
      requires Valid() && conf.Hash? && HasKey(conf, "merge")
      modifies this, aptly, aptly.tool
      decreases conf, 1
      ensures Valid() && Kept(old(aptly.tool.db), aptly.tool.db)
      ensures snapshots == old(snapshots) && points == old(points) && old(toDrop) <= toDrop
      ensures r.Ok? ==> MergeItems(Get(conf, "merge")).Some? && |merged| == |MergeItems(Get(conf, "merge")).value|
      ensures r.Ok? ==>
        (r.value == aptly.NewName(prefix) && r.value in aptly.tool.db.snapshots
         && aptly.tool.db.snapshots[r.value].sources == merged
         && |aptly.tool.log| > 0 && aptly.tool.log[|aptly.tool.log| - 1] == Exec(MergeArgv(aptly.cmd, r.value, merged)))
      ensures r.Ok? && (forall n :: n in snapshots ==> !StartsWith(n, prefix + separator))
              && PinnedNames(MergeItems(Get(conf, "merge")).value).Some? ==>
        merged == PinnedNames(MergeItems(Get(conf, "merge")).value).value
    {
      merged := [];
      var items := MergeItems(Get(conf, "merge"));
      if items.None? {
        return Err(Fault("merge sources are not a list")), merged;
      }
      var merge := Get(conf, "merge");
      assert forall k :: 0 <= k < |items.value| ==> items.value[k] < conf by {
        forall k | 0 <= k < |items.value| ensures items.value[k] < conf {
          assert items.value[k] < merge;
        }
      }
      var sources :- ResolveSources(prefix, items.value, conf);
      var names := AllResolved(sources);
      if names.None? {
        return Err(Fault("TypeError: no implicit conversion of nil into String")), merged;
      }
      merged := names.value;
      var made :- aptly.Merge(prefix, names.value);
      r := Ok(made);
    }

    /** `sources.map.with_index`: each source is resolved in turn, with the
        parts of the prefix joined by the script separator. Sources pinned
        to snapshots, below a prefix no listed snapshot has, resolve to those
        names. */
    method ResolveSources(prefix: string, items: seq<Value>, ghost conf: Value) returns (r: Result<seq<Option<string>>, Error>)
      requires Valid() && forall k :: 0 <= k < |items| ==> items[k] < conf
      modifies this, aptly, aptly.tool
      decreases conf, 0
      ensures Valid() && Kept(old(aptly.tool.db), aptly.tool.db)
      ensures snapshots == old(snapshots) && points == old(points) && old(toDrop) <= toDrop
      ensures r.Ok? ==> |r.value| == |items|
      ensures (forall n :: n in snapshots ==> !StartsWith(n, prefix + separator)) && PinnedNames(items).Some? ==>
        r.Ok? && forall k :: 0 <= k < |items| ==> r.value[k] == Some(PinnedNames(items).value[k])
    {
      ghost var quiet := forall n :: n in snapshots ==> !StartsWith(n, prefix + separator);
      var sources: seq<Option<string>> := [];
      var i := 0;
      while i < |items|
        invariant 0 <= i <= |items| && |sources| == i
        invariant Valid() && Kept(old(aptly.tool.db), aptly.tool.db)
        invariant snapshots == old(snapshots) && points == old(points) && old(toDrop) <= toDrop
        invariant quiet && PinnedNames(items).Some? ==>
          forall j :: 0 <= j < i ==> sources[j] == Some(PinnedNames(items).value[j])
      {
        if quiet && PinnedNames(items).Some? {
          FamilyBelowEmpty(snapshots, prefix, separator, NatToString(i));
        }
        var source, _, _, _ :- ResolveSnapshot(prefix + separator + NatToString(i), items[i]);
        sources := sources + [source];
        i := i + 1;
      }
      r := Ok(sources);
    }

    /** `publish`: switches the point when the listing taken at the start
        has it, creates it otherwise, with neither `-force-overwrite` nor
        architectures. */
    method Publish(path: string, components: seq<(string, Option<string>)>) returns (r: Result<(), Error>)
      requires Valid()
      modifies aptly.tool
      ensures Valid()
      ensures aptly.tool.db.names == old(aptly.tool.db.names) && aptly.tool.db.snapshots == old(aptly.tool.db.snapshots)
      ensures SplitPath(path).None? ==> r.Err? && aptly.tool.db == old(aptly.tool.db) && aptly.tool.log == old(aptly.tool.log)
      ensures r.Ok? ==> SplitPath(path).Some? && Resolved(components).Some?
      ensures r.Ok? ==> Serves(aptly.tool.db.points, PointKey(SplitPath(path).value.0, SplitPath(path).value.1),
                               Names(Resolved(components).value))
      ensures r.Ok? ==> (|aptly.tool.log| > 0 &&
        var (prefix, distribution) := SplitPath(path).value;
        aptly.tool.log[|aptly.tool.log| - 1] == Exec(
          if PointKey(prefix, distribution) in points
          then LegacySwitchArgv(aptly.cmd, prefix, distribution, Resolved(components).value)
          else LegacyCreatePublishArgv(aptly.cmd, prefix, distribution, Resolved(components).value)))
    {
      var split := SplitPath(path);
      if split.None? {
        return Err(Fault("NoMethodError: undefined method `captures' for nil"));
      }
      var (prefix, distribution) := split.value;
      var key := PointKey(prefix, distribution);
      var resolved := Resolved(components);
      if resolved.None? {
        return Err(Fault("TypeError: no implicit conversion of nil into String"));
      }
      if key in points {
        var argv := LegacySwitchArgv(aptly.cmd, prefix, distribution, resolved.value);
        ghost var before := aptly.tool.db.points;
        var resp := aptly.tool.PublishSwitch(argv, key, Names(resolved.value));
        var _ :- Checked(argv, resp);
        PointIndexSwitched(before, key, Names(resolved.value));
      } else {
        var argv := LegacyCreatePublishArgv(aptly.cmd, prefix, distribution, resolved.value);
        ghost var before := aptly.tool.db.points;
        var resp := aptly.tool.PublishNew(argv, key, Names(resolved.value));
        var _ :- Checked(argv, resp);
        PointIndexAppended(before, key, Names(resolved.value));
      }
      r := Ok(());
    }

    /** One publishing point of the main loop: skipped without components;
        otherwise every component is resolved in the order of the
        configuration, the name script runs, and `name` is published with
        `published`. */
    method PublishPoint(pub: string, c: Value) returns (r: Result<(), Error>, ghost name: string, ghost published: seq<(string, string)>)
      requires Valid()
      modifies this, aptly, aptly.tool
      ensures Valid() && snapshots == old(snapshots) && points == old(points) && old(toDrop) <= toDrop
      ensures !c.Hash? ==> r.Err? && aptly.tool.db == old(aptly.tool.db)
      ensures c.Hash? && !HasKey(c, "components") ==>
        r == Ok(()) && aptly.tool.db == old(aptly.tool.db) && aptly.tool.log == old(aptly.tool.log) && toDrop == old(toDrop)
      ensures r.Ok? && c.Hash? && HasKey(c, "components") ==>
        Get(c, "components").Hash?
        && (!HasKey(c, "name") ==> name == pub)
        && (HasKey(c, "name") ==>
              (Get(c, "name").Str? && name == Chomp(aptly.tool.scripts(Get(c, "name").s).stdout)))
        && |published| == |Get(c, "components").entries|
        && (forall j :: 0 <= j < |published| ==> published[j].0 == Get(c, "components").entries[j].0)
        && SplitPath(name).Some?
      ensures r.Ok? && c.Hash? && HasKey(c, "components") ==>
        var (prefix, distribution) := SplitPath(name).value;
        Serves(aptly.tool.db.points, PointKey(prefix, distribution), Names(published))
        && |aptly.tool.log| > 0
        && aptly.tool.log[|aptly.tool.log| - 1] == Exec(
             if PointKey(prefix, distribution) in points
             then LegacySwitchArgv(aptly.cmd, prefix, distribution, published)
             else LegacyCreatePublishArgv(aptly.cmd, prefix, distribution, published))
    {
      name, published := pub, [];
      if !c.Hash? {
        return Err(Fault("NoMethodError: undefined method `has_key?'")), name, published;
      }
      if !HasKey(c, "components") {
        return Ok(()), name, published;
      }
      var components := Get(c, "components");
      if !components.Hash? {
        return Err(Fault("components are not a Hash")), name, published;
      }
      var toPublish :- ResolveComponents(pub, components.entries);
      r, name, published := PublishAs(pub, c, toPublish);
    }

    /** `c['components'].map`: every component is resolved in turn under
        `<pub><separator><component>`, in the order of the configuration. */
    method ResolveComponents(pub: string, entries: seq<(string, Value)>) returns (r: Result<seq<(string, Option<string>)>, Error>)
      requires Valid()
      modifies this, aptly, aptly.tool
      ensures Valid() && snapshots == old(snapshots) && points == old(points) && old(toDrop) <= toDrop
      ensures r.Ok? ==> |r.value| == |entries| && forall j :: 0 <= j < |entries| ==> r.value[j].0 == entries[j].0
    {
      var toPublish: seq<(string, Option<string>)> := [];
      var k := 0;
      while k < |entries|
        invariant 0 <= k <= |entries| && |toPublish| == k
        invariant Valid() && snapshots == old(snapshots) && points == old(points) && old(toDrop) <= toDrop
        invariant forall j :: 0 <= j < k ==> toPublish[j].0 == entries[j].0
      {
        var (component, cconf) := entries[k];
        var resolved, _, _, _ :- ResolveSnapshot(pub + separator + component, cconf);
        toPublish := toPublish + [(component, resolved)];
        k := k + 1;
      }
      r := Ok(toPublish);
    }

    /** The end of a publishing point: the name script, if any, names the
        point, which is published with the resolved components. */
    method PublishAs(pub: string, c: Value, toPublish: seq<(string, Option<string>)>)
      returns (r: Result<(), Error>, ghost name: string, ghost published: seq<(string, string)>)
      requires Valid() && c.Hash?
      modifies aptly.tool
      ensures Valid()
      ensures r.Ok? ==>
        (!HasKey(c, "name") ==> name == pub)
        && (HasKey(c, "name") ==>
              (Get(c, "name").Str? && name == Chomp(aptly.tool.scripts(Get(c, "name").s).stdout)))
        && SplitPath(name).Some? && Resolved(toPublish).Some? && published == Resolved(toPublish).value
      ensures r.Ok? ==>
        var (prefix, distribution) := SplitPath(name).value;
        Serves(aptly.tool.db.points, PointKey(prefix, distribution), Names(published))
        && |aptly.tool.log| > 0
        && aptly.tool.log[|aptly.tool.log| - 1] == Exec(
             if PointKey(prefix, distribution) in points
             then LegacySwitchArgv(aptly.cmd, prefix, distribution, published)
             else LegacyCreatePublishArgv(aptly.cmd, prefix, distribution, published))
    {
      name, published := pub, [];
      var path := pub;
      if HasKey(c, "name") {
        var script := Get(c, "name");
        if !script.Str? {
          return Err(Fault("TypeError: name script is not a String")), name, published;
        }
        path :- Script(script.s);
      }
      name := path;
      r := Publish(path, toPublish);
      if r.Ok? {
        published := Resolved(toPublish).value;
      }
    }

    /** `$ss_to_drop.each`: drops every condemned snapshot in turn, and
        publishes nothing. */
    method DropCondemned(condemned: seq<string>) returns (r: Result<(), Error>)
      requires aptly.Valid()
      modifies aptly.tool
      ensures aptly.Valid() && old(aptly.tool.log) <= aptly.tool.log && Quiet(aptly.tool.log, |old(aptly.tool.log)|)
      ensures r.Ok? ==> forall k :: 0 <= k < |condemned| ==>
        Exec(DropArgv(aptly.cmd, condemned[k])) in RunSince(aptly.tool.log, |old(aptly.tool.log)|)
    {
      var i := 0;
      while i < |condemned|
        invariant 0 <= i <= |condemned|
        invariant aptly.Valid() && old(aptly.tool.log) <= aptly.tool.log && Quiet(aptly.tool.log, |old(aptly.tool.log)|)
        invariant forall j :: 0 <= j < i ==>
          Exec(DropArgv(aptly.cmd, condemned[j])) in RunSince(aptly.tool.log, |old(aptly.tool.log)|)
      {
        ghost var before := aptly.tool.log;
        var dropped := aptly.DropLogged(condemned[i]);
        LogStep(before, aptly.tool.log, |old(aptly.tool.log)|);
        if dropped.Err? {
          return Err(dropped.error);
        }
        i := i + 1;
      }
      r := Ok(());
    }

    /** The main body: list mirrors, snapshots and publishing points once,
        publish every configured point, then drop what `keep` condemned and
        clean the database up: nothing is published after position
        `published` of the log, and every condemned snapshot is dropped
        after it. */
    method Run(config: Value) returns (r: Result<(), Error>, ghost published: nat)
      requires Valid()
      modifies this, aptly, aptly.tool
      ensures Valid()
      ensures snapshots == old(aptly.tool.db.names) && points == PointKeys(old(aptly.tool.db.points))
      ensures !config.Hash? ==> r.Err? && aptly.tool.db == old(aptly.tool.db)
      ensures r.Ok? ==> |aptly.tool.log| > 0 && aptly.tool.log[|aptly.tool.log| - 1] == Exec(CleanupArgv(aptly.cmd))
      ensures r.Ok? ==> published <= |aptly.tool.log| && Quiet(aptly.tool.log, published)
      ensures r.Ok? ==> forall k :: 0 <= k < |toDrop| ==> Exec(DropArgv(aptly.cmd, toDrop[k])) in RunSince(aptly.tool.log, published)
    {
      published := |aptly.tool.log|;
      var _ := aptly.Mirrors();
      var listed := aptly.Snapshots();
      snapshots := listed.value;
      var listing := aptly.PublishPoints();
      points := listing.value;
      toDrop := [];
      if !config.Hash? {
        return Err(Fault("NoMethodError: undefined method `each_pair'")), published;
      }
      var k := 0;
      while k < |config.entries|
        invariant 0 <= k <= |config.entries|
        invariant Valid()
        invariant snapshots == old(aptly.tool.db.names) && points == PointKeys(old(aptly.tool.db.points))
      {
        var (pub, c) := config.entries[k];
        var _, _, _ :- PublishPoint(pub, c);
        k := k + 1;
      }
      published := |aptly.tool.log|;
      var _ :- DropCondemned(toDrop);
      ghost var before := aptly.tool.log;
      r := aptly.Cleanup();
      assert CleanupArgv(aptly.cmd)[1] == "db";
      QuietAppend(before, published, Exec(CleanupArgv(aptly.cmd)));
      RunSinceGrows(before, aptly.tool.log, published);
    }
  }
}
