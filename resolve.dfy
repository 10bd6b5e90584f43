/** The decisions `AptlyUpdate#resolve_snapshot` makes on names alone: which
    existing snapshots belong to a component, which of them the `lag`
    setting selects, and which older ones the `keep` setting prunes. */
module Resolve {
  import opened Wrappers
  import opened Text
  import opened Values
  import opened Order
  import opened Protocol

  /** Ruby `a[i]`: a negative index counts from the end, and an index out of
      range gives `nil`. */
  function RubyIndex(s: seq<string>, i: int): (r: Option<string>)
    ensures r.Some? <==> -|s| <= i < |s|
    ensures 0 <= i < |s| ==> r == Some(s[i])
    ensures -|s| <= i < 0 ==> r == Some(s[|s| + i])
  {
    if 0 <= i < |s| then Some(s[i])
    else if -|s| <= i < 0 then Some(s[|s| + i])
    else None
  }

  /** The names that satisfy `p`, in their original order (Ruby `select`). */
  function Filter(names: seq<string>, p: string -> bool): (r: seq<string>)
    ensures forall n :: n in r <==> n in names && p(n)
    ensures |r| <= |names|
  {
    if names == [] then []
    else if p(names[0]) then [names[0]] + Filter(names[1..], p)
    else Filter(names[1..], p)
  }

  /** The last name selected is the last name in the input that satisfies
      `p`; `k` is its position. */
  lemma {:induction false} FilterLast(names: seq<string>, p: string -> bool) returns (k: nat)
    requires |Filter(names, p)| > 0
    ensures var r := Filter(names, p);
      k < |names| && names[k] == r[|r| - 1] && p(names[k])
      && forall j :: k < j < |names| ==> !p(names[j])
  {
    var r := Filter(names, p);
    var rest := Filter(names[1..], p);
    if |rest| > 0 {
      var k' := FilterLast(names[1..], p);
      assert r[|r| - 1] == rest[|rest| - 1];
      k := k' + 1;
      forall j | k < j < |names| ensures !p(names[j]) {
        assert names[j] == names[1..][j - 1];
      }
    } else {
      k := 0;
      assert r == [names[0]];
      forall j | 0 < j < |names| ensures !p(names[j]) {
        assert names[j] in names[1..];
      }
    }
  }

  /** Selecting from a sorted sequence keeps it sorted. */
  lemma {:induction false} FilterSorted(names: seq<string>, p: string -> bool)
    requires Sorted(names)
    ensures Sorted(Filter(names, p))
  {
    if names != [] {
      var rest := Filter(names[1..], p);
      assert Sorted(names[1..]);
      FilterSorted(names[1..], p);
      if p(names[0]) {
        forall j | 0 <= j < |rest| ensures AtMost(names[0], rest[j]) {
          assert rest[j] in names[1..];
          var k :| 0 <= k < |names[1..]| && names[1..][k] == rest[j];
          assert names[k + 1] == rest[j];
        }
      }
    }
  }

  /** The snapshots made for `prefix`: their name continues with the double
      separator, and they are sorted as Ruby sorts strings, so that the
      timestamp suffixes put them in chronological order. */
  function Family(names: seq<string>, prefix: string, separator: string): (r: seq<string>)
    ensures Sorted(r)
    ensures forall n :: n in r <==> n in names && StartsWith(n, prefix + separator + separator)
  {
    var lead := prefix + separator + separator;
    var matching := Filter(names, n => StartsWith(n, lead));
    assert forall n :: n in matching <==> n in names && StartsWith(n, lead);
    var r := Sort(matching);
    assert forall n :: n in r <==> n in multiset(r);
    assert forall n :: n in matching <==> n in multiset(matching);
    r
  }

  /** The family with the resolved snapshot appended, unless it is already
      the newest entry. */
  function Extend(family: seq<string>, snapshot: string): (r: seq<string>)
    ensures |r| > 0 && r[|r| - 1] == snapshot
    ensures forall n :: n in r <==> n in family || n == snapshot
    ensures r[..|r| - 1] == family || r == family
  {
    if |family| > 0 && family[|family| - 1] == snapshot then family else family + [snapshot]
  }

  // ----- lag -----

  /** The meaning of a `lag` setting: the newest snapshot, the one `back`
      versions before it, or the newest one at least `span` seconds old. */
  datatype Lag = Newest | Versions(back: int) | Seconds(span: nat)

  /** A decimal count followed by the unit letter, as `/^(\d+)v$/` and
      `/^(\d+)s$/` match it. */
  predicate CountWithUnit(s: string, unit: char) {
    |s| >= 2 && AllDigits(s[..|s| - 1]) && s[|s| - 1] == unit
  }

  /** `resolve_snapshot_lag`: "0", "0v" and "0s" mean the newest; an Integer
      or "<n>v" counts versions; "<n>s" counts seconds; anything else falls
      back to the newest. */
  function ParseLag(lag: Value): (r: Lag)
    ensures lag.Int? ==> r == Versions(lag.i)
    ensures lag == Str("0") || lag == Str("0v") || lag == Str("0s") ==> r == Newest
    ensures lag.Str? && CountWithUnit(lag.s, 'v') && lag.s != "0v" ==> r == Versions(ParseNat(lag.s[..|lag.s| - 1]))
    ensures lag.Str? && CountWithUnit(lag.s, 's') && lag.s != "0s" ==> r == Seconds(ParseNat(lag.s[..|lag.s| - 1]))
    ensures !lag.Int? && !(lag.Str? && (CountWithUnit(lag.s, 'v') || CountWithUnit(lag.s, 's'))) ==> r == Newest
  {
    if lag == Str("0") || lag == Str("0v") || lag == Str("0s") then Newest
    else match lag
      case Int(n) => Versions(n)
      case Str(s) =>
        if CountWithUnit(s, 'v') then Versions(ParseNat(s[..|s| - 1]))
        else if CountWithUnit(s, 's') then Seconds(ParseNat(s[..|s| - 1]))
        else Newest
      case _ => Newest
  }

  /** A lag written as a count and a unit reads back as that count. */
  lemma ParseLagOfCount(n: nat)
    ensures n > 0 ==> ParseLag(Str(NatToString(n) + "v")) == Versions(n)
    ensures n == 0 ==> ParseLag(Str(NatToString(n) + "v")) == Newest
    ensures n > 0 ==> ParseLag(Str(NatToString(n) + "s")) == Seconds(n)
  {
    ParseLagOfUnit(n, 'v');
    ParseLagOfUnit(n, 's');
  }

  /** One unit at a time: the text either is one of the spellings of zero
      or is parsed by its count. */
  lemma ParseLagOfUnit(n: nat, unit: char)
    requires unit == 'v' || unit == 's'
    ensures var lag := ParseLag(Str(NatToString(n) + [unit]));
      (n == 0 && lag == Newest)
      || (unit == 'v' && lag == Versions(n))
      || (unit == 's' && lag == Seconds(n))
  {
    var s := NatToString(n) + [unit];
    CountReadsBack(n, unit);
    assert s[..|s| - 1] == s[..|NatToString(n)|];
    if s == "0" || s == "0v" || s == "0s" {
      assert s[..|s| - 1] == "0";
    }
  }

  /** The count in front of a unit letter is the count that was written. */
  lemma CountReadsBack(n: nat, unit: char)
    ensures CountWithUnit(NatToString(n) + [unit], unit)
    ensures ParseNat((NatToString(n) + [unit])[..|NatToString(n)|]) == n
  {
    var digits := NatToString(n);
    ParseNatOfNatToString(n);
    assert (digits + [unit])[..|digits|] == digits;
  }

  /** `resolve_snapshot_lag_version`: the snapshot `back` versions before the
      newest, or the oldest one when there is not enough history. A negative
      count indexes from the front, as Ruby's `a[-back - 1]` does. */
  function SelectVersion(ext: seq<string>, back: int): (r: string)
    requires |ext| > 0
    ensures r in ext
    ensures 0 <= back < |ext| ==> r == ext[|ext| - 1 - back]
    ensures back >= |ext| ==> r == ext[0]
    ensures back < 0 && -back - 1 < |ext| ==> r == ext[-back - 1]
  {
    match RubyIndex(ext, -back - 1)
    case Some(s) => s
    case None => ext[0]
  }

  /** The timestamp a snapshot name carries: what follows the first double
      separator (`/#{sep}#{sep}(.*)$/`); `nil` when there is none. */
  function Stamp(name: string, marker: string): (r: Option<string>)
    ensures r.Some? ==> |r.value| <= |name| && r.value == name[|name| - |r.value|..]
    ensures marker != "" ==> (r.None? <==> forall j: nat :: !OccursAt(name, marker, j))
  {
    if marker == "" then Some(name)
    else match IndexOf(name, marker)
      case None => None
      case Some(i) => Some(name[i + |marker|..])
  }

  /** The names `Aptly` gives new snapshots carry their timestamp. */
  lemma StampOfNewName(prefix: string, marker: string, now: string)
    requires marker != "" && Delimited(prefix, marker)
    ensures Stamp(prefix + marker + now, marker) == Some(now)
  {
    IndexOfAfterDelimited(prefix, marker, now);
    assert (prefix + marker + now)[|prefix| + |marker|..] == now;
  }

  /** The snapshot is at least as old as the pivot time. */
  predicate Due(name: string, marker: string, pivot: string) {
    Stamp(name, marker).Some? && AtMost(Stamp(name, marker).value, pivot)
  }

  /** `s` is the last name in `ext` that is due. */
  predicate LastDue(ext: seq<string>, marker: string, pivot: string, s: string) {
    exists k :: 0 <= k < |ext| && ext[k] == s && Due(s, marker, pivot)
      && forall j :: k < j < |ext| ==> !Due(ext[j], marker, pivot)
  }

  /** The names of `ext` that are due, in order. */
  function DueNames(ext: seq<string>, marker: string, pivot: string): (r: seq<string>)
    ensures forall n :: n in r <==> n in ext && Due(n, marker, pivot)
  {
    Filter(ext, n => Due(n, marker, pivot))
  }

  /** The `select` of `resolve_snapshot_lag_time`: the names that are due, in
      order; comparing the missing timestamp of a name without one raises. */
  function Candidates(ext: seq<string>, marker: string, pivot: string): (r: Result<seq<string>, Error>)
    ensures r.Ok? <==> forall k :: 0 <= k < |ext| ==> Stamp(ext[k], marker).Some?
    ensures r.Ok? ==> forall n :: n in r.value <==> n in ext && Due(n, marker, pivot)
    ensures r.Ok? ==> r.value == DueNames(ext, marker, pivot)
  {
    if exists k :: 0 <= k < |ext| && Stamp(ext[k], marker).None? then
      Err(Fault("NoMethodError: undefined method `<=' for nil"))
    else Ok(DueNames(ext, marker, pivot))
  }

  /** The last candidate is the last name in the history that is due. */
  lemma LastCandidateIsLastDue(ext: seq<string>, marker: string, pivot: string)
    requires Candidates(ext, marker, pivot).Ok? && |Candidates(ext, marker, pivot).value| > 0
    ensures var c := Candidates(ext, marker, pivot).value; LastDue(ext, marker, pivot, c[|c| - 1])
  {
    var p := n => Due(n, marker, pivot);
    var c := DueNames(ext, marker, pivot);
    assert c == Filter(ext, p);
    var k := FilterLast(ext, p);
    assert ext[k] == c[|c| - 1] && Due(ext[k], marker, pivot);
  }

  /** `resolve_snapshot_lag_time`: the last snapshot whose timestamp is not
      after the pivot, or the oldest one when none is. */
  function SelectTime(ext: seq<string>, marker: string, pivot: string): (r: Result<string, Error>)
    requires |ext| > 0
    ensures r.Ok? <==> forall k :: 0 <= k < |ext| ==> Stamp(ext[k], marker).Some?
    ensures r.Ok? ==> r.value in ext
    ensures r.Ok? && (exists k :: 0 <= k < |ext| && Due(ext[k], marker, pivot)) ==> LastDue(ext, marker, pivot, r.value)
    ensures r.Ok? && (forall k :: 0 <= k < |ext| ==> !Due(ext[k], marker, pivot)) ==> r.value == ext[0]
  {
    var candidates :- Candidates(ext, marker, pivot);
    if candidates == [] then
      assert forall k :: 0 <= k < |ext| ==> ext[k] in ext;
      Ok(ext[0])
    else
      assert candidates[|candidates| - 1] in candidates;
      LastCandidateIsLastDue(ext, marker, pivot);
      Ok(candidates[|candidates| - 1])
  }

  /** The snapshot the lag selects; `pivotFor(n)` is the time `n` seconds ago
      in the format of snapshot timestamps. */
  function Select(ext: seq<string>, lag: Lag, marker: string, pivotFor: nat -> string): (r: Result<string, Error>)
    requires |ext| > 0
    ensures r.Ok? ==> r.value in ext
    ensures !lag.Seconds? ==> r.Ok?
    ensures lag.Newest? ==> r == Ok(ext[|ext| - 1])
  {
    match lag
    case Newest => Ok(ext[|ext| - 1])
    case Versions(back) => Ok(SelectVersion(ext, back))
    case Seconds(span) => SelectTime(ext, marker, pivotFor(span))
  }

  // ----- keep -----

  /** `filter_snapshots_old`: the snapshots strictly older than the selected
      one, in their order. */
  function Older(ext: seq<string>, selected: string): (r: seq<string>)
    ensures forall n :: n in r <==> n in ext && Below(n, selected)
    ensures Sorted(ext) ==> Sorted(r)
    ensures |r| <= |ext|
  {
    if Sorted(ext) then
      FilterSorted(ext, n => Below(n, selected));
      Filter(ext, n => Below(n, selected))
    else Filter(ext, n => Below(n, selected))
  }

  /** What `prune_old_snapshots` drops when `keep` is not negative: the
      oldest older snapshots, until `keep` of them remain. */
  function PrunePlan(ext: seq<string>, selected: string, keep: int): (r: seq<string>)
    ensures keep < 0 ==> r == []
    ensures |r| <= |Older(ext, selected)| && r == Older(ext, selected)[..|r|]
    ensures keep >= 0 ==> |Older(ext, selected)| - |r| == if |Older(ext, selected)| < keep then |Older(ext, selected)| else keep
  {
    var older := Older(ext, selected);
    if keep < 0 || |older| <= keep then [] else older[..|older| - keep]
  }

  /** A snapshot alone in its family has nothing older than it. */
  lemma NothingOlderThanOnly(snapshot: string)
    ensures Older([snapshot], snapshot) == []
  {
    var older := Older([snapshot], snapshot);
    if older != [] {
      assert older[0] in older;
      BelowIrreflexive(snapshot);
    }
  }

  /** When no snapshot name starts with `prefix` and the separator, the
      family of every prefix below it is empty. */
  lemma FamilyBelowEmpty(names: seq<string>, prefix: string, separator: string, child: string)
    requires forall n :: n in names ==> !StartsWith(n, prefix + separator)
    ensures Family(names, prefix + separator + child, separator) == []
  {
    var family := Family(names, prefix + separator + child, separator);
    assert forall n :: n !in family;
    EmptyOrHeadIn(family);
  }

  lemma EmptyOrHeadIn(s: seq<string>)
    ensures s == [] || s[0] in s
  {
  }

  /** The selected snapshot is never pruned, nor anything not older than it. */
  lemma PruneSparesSelected(ext: seq<string>, selected: string, keep: int)
    ensures selected !in PrunePlan(ext, selected, keep)
    ensures forall n :: n in PrunePlan(ext, selected, keep) ==> n in ext && Below(n, selected)
  {
    var plan := PrunePlan(ext, selected, keep);
    var older := Older(ext, selected);
    forall n | n in plan ensures n in ext && Below(n, selected) {
      var k :| 0 <= k < |plan| && plan[k] == n;
      assert older[k] == n;
    }
    BelowIrreflexive(selected);
  }

  /** With a sorted history, every pruned snapshot is older than every older
      snapshot that is kept. */
  lemma PruneOldestFirst(ext: seq<string>, selected: string, keep: int)
    requires Sorted(ext)
    ensures var older := Older(ext, selected);
      var plan := PrunePlan(ext, selected, keep);
      forall i, j :: 0 <= i < |plan| <= j < |older| ==> AtMost(plan[i], older[j])
  {
  }

  /** Keeping -1 (the default) prunes nothing; keeping 0 prunes every older
      snapshot. */
  lemma PruneBounds(ext: seq<string>, selected: string)
    ensures PrunePlan(ext, selected, -1) == []
    ensures PrunePlan(ext, selected, 0) == Older(ext, selected)
  {
  }

  /** A selection that holds of a leading run and of nothing after it keeps
      exactly that run. */
  lemma {:induction false} FilterLeadingRun(names: seq<string>, p: string -> bool, i: nat)
    requires i <= |names|
    requires forall j :: 0 <= j < i ==> p(names[j])
    requires forall j :: i <= j < |names| ==> !p(names[j])
    ensures Filter(names, p) == names[..i]
    decreases |names|
  {
    if names != [] {
      FilterLeadingRun(names[1..], p, if i > 0 then i - 1 else 0);
      if i > 0 {
        assert names[..i] == [names[0]] + names[1..][..i - 1];
      }
    }
  }

  /** In a strictly ascending family the snapshots older than the `i`-th are
      the ones before it. */
  lemma OlderOfIncreasing(ext: seq<string>, i: nat)
    requires Increasing(ext) && i < |ext|
    ensures Older(ext, ext[i]) == ext[..i]
  {
    forall j | i <= j < |ext| ensures !Below(ext[j], ext[i]) {
      if j == i {
        BelowIrreflexive(ext[i]);
      } else {
        BelowAsymmetric(ext[i], ext[j]);
      }
    }
    FilterLeadingRun(ext, n => Below(n, ext[i]), i);
  }

  /** So pruning for the `i`-th snapshot drops exactly the `i - keep` oldest
      snapshots, when there are more than `keep` before it. */
  lemma PruneOfIncreasing(ext: seq<string>, i: nat, keep: nat)
    requires Increasing(ext) && i < |ext|
    ensures PrunePlan(ext, ext[i], keep) == ext[..if i > keep then i - keep else 0]
  {
    OlderOfIncreasing(ext, i);
    assert ext[..i][..if i > keep then i - keep else 0] == ext[..if i > keep then i - keep else 0];
  }

  /** Names that share a lead and end in ascending characters ascend. */
  function Series(lead: string, stamps: string): (r: seq<string>)
    ensures |r| == |stamps| && forall k :: 0 <= k < |r| ==> r[k] == lead + [stamps[k]]
  {
    seq(|stamps|, k requires 0 <= k < |stamps| => lead + [stamps[k]])
  }

  lemma SeriesIncreasing(lead: string, stamps: string)
    requires forall i, j :: 0 <= i < j < |stamps| ==> stamps[i] < stamps[j]
    ensures Increasing(Series(lead, stamps))
  {
    var r := Series(lead, stamps);
    forall i, j | 0 <= i < j < |r| ensures Below(r[i], r[j]) {
      BelowCommonLead(lead, [stamps[i]], [stamps[j]]);
    }
  }

  // ----- the cases of the update script's own test run -----

  /** The family of the keep test: five earlier snapshots and the new one. */
  function KeepFamily(): seq<string> {
    Series("mirror-keep main  __", "123456")
  }

  /** Keeping one of five older snapshots drops the other four, oldest
      first, and never the new one. */
  lemma KeepExample()
    ensures Select(KeepFamily(), ParseLag(Str("0")), "  ", n => "") == Ok(KeepFamily()[5])
    ensures PrunePlan(KeepFamily(), KeepFamily()[5], 1) == KeepFamily()[..4]
  {
    SeriesIncreasing("mirror-keep main  __", "123456");
    PruneOfIncreasing(KeepFamily(), 5, 1);
  }

  /** The family of the lag tests, stamped in the order they were taken;
      "3" stands for the stamp of the snapshot one day old. */
  function LagFamily(): seq<string> {
    Series("lag main  ", "123456")
  }

  /** A lag of three versions selects the third snapshot, and with `keep`
      1 only the first is dropped. */
  lemma LagVersionsExample(pivotFor: nat -> string)
    ensures Select(LagFamily(), ParseLag(Str("3v")), "  ", pivotFor) == Ok(LagFamily()[2])
    ensures PrunePlan(LagFamily(), LagFamily()[2], 1) == [LagFamily()[0]]
  {
    ThreeVersions();
    SeriesIncreasing("lag main  ", "123456");
    PruneOfIncreasing(LagFamily(), 2, 1);
  }

  /** "3v" reads as a lag of three versions. */
  lemma ThreeVersions()
    ensures ParseLag(Str("3v")) == Versions(3)
  {
    assert "3v"[..1] == "3";
    assert ParseNat("3") == 3;
  }

  /** "86400s" reads as a lag of a day. */
  lemma DayLag()
    ensures ParseLag(Str("86400s")) == Seconds(86400)
  {
    assert ParseNat("8") == 8;
    assert "86"[..1] == "8";
    assert ParseNat("86") == 86;
    assert "864"[..2] == "86";
    assert ParseNat("864") == 864;
    assert "8640"[..3] == "864";
    assert ParseNat("8640") == 8640;
    assert "86400"[..4] == "8640";
    assert ParseNat("86400") == 86400;
    assert "86400s"[..|"86400s"| - 1] == "86400";
    assert CountWithUnit("86400s", 's') && !CountWithUnit("86400s", 'v');
  }

  /** Every name of the lag family is stamped with its last character. */
  lemma StampsOfLagFamily()
    ensures forall k :: 0 <= k < |LagFamily()| ==> Stamp(LagFamily()[k], "  ") == Some(["123456"[k]])
  {
    var ext := LagFamily();
    forall j: nat | j < |"lag main"| ensures !OccursAt("lag main" + "  ", "  ", j) {
      assert ("lag main" + "  ")[j] != ' ' || ("lag main" + "  ")[j + 1] != ' ';
    }
    forall k | 0 <= k < |ext| ensures Stamp(ext[k], "  ") == Some(["123456"[k]]) {
      assert ext[k] == "lag main" + "  " + ["123456"[k]];
      StampOfNewName("lag main", "  ", ["123456"[k]]);
    }
  }

  /** Against the pivot "3", the first three snapshots of the lag family
      are due, in order. */
  lemma DueOfLagFamily()
    ensures Candidates(LagFamily(), "  ", "3") == Ok(LagFamily()[..3])
  {
    var ext := LagFamily();
    StampsOfLagFamily();
    var p := n => Due(n, "  ", "3");
    forall k | 0 <= k < |ext| ensures p(ext[k]) <==> k < 3 {
      var c := "123456"[k];
      assert Stamp(ext[k], "  ") == Some([c]);
      if k < 2 {
        assert Below([c], "3");
      } else if k > 2 {
        assert Below("3", [c]);
        BelowAsymmetric("3", [c]);
      }
    }
    FilterLeadingRun(ext, p, 3);
    assert DueNames(ext, "  ", "3") == Filter(ext, p);
  }

  /** A lag of a day, with the pivot stamped "3", selects the third snapshot
      too: it is the newest not stamped after the pivot. */
  lemma LagTimeExample(pivotFor: nat -> string)
    requires pivotFor(86400) == "3"
    ensures Select(LagFamily(), ParseLag(Str("86400s")), "  ", pivotFor) == Ok(LagFamily()[2])
  {
    DayLag();
    DueOfLagFamily();
  }
}
