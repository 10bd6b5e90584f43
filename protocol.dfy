/** The text protocol spoken with the `aptly` binary, as the Ruby gateway
    uses it: the argument vectors of every command, the `snapshot show`
    description and its merge lineage, the `snapshot diff` verdict, the drop
    failure classification, the publish-path split and the `##APTLY##`
    placeholder. Everything here is a pure function of its inputs. */
module Protocol {
  import opened Wrappers
  import opened Text
  import opened Values

  // ----- invocations and their failures -----

  /** A process the gateway starts: an argument vector for `run`, or a shell
      script text for `script`. */
  datatype Invocation = Exec(argv: seq<string>) | Shell(script: string)

  /** `RunError`: the command, its exit status and its captured output. */
  datatype RunError = RunError(command: Invocation, exitstatus: int, output: string)

  /** What ends a run early: a failed command that nobody rescued, or a Ruby
      runtime exception (TypeError, NoMethodError, ...) caused by a
      configuration value of the wrong kind. */
  datatype Error = Failed(run: RunError) | Fault(reason: string)

  function Quote(a: string): string {
    "'" + a + "'"
  }

  function QuoteAll(xs: seq<string>): (r: seq<string>)
    ensures |r| == |xs| && forall k :: 0 <= k < |xs| ==> r[k] == Quote(xs[k])
  {
    if xs == [] then [] else [Quote(xs[0])] + QuoteAll(xs[1..])
  }

  /** `RunError#message`. A script failure carries the script text, not an
      argument vector, and `String` has no `map`: asking for its message
      raises, which is `None` here. */
  function Message(e: RunError): (r: Option<string>)
    ensures r.Some? <==> e.command.Exec?
    ensures r.Some? ==> StartsWith(r.value, "Command `")
    ensures r.Some? && e.exitstatus >= 0 ==>
      var code := NatToString(e.exitstatus);
      |code| <= |r.value| && r.value[|r.value| - |code|..] == code
  {
    match e.command
    case Shell(_) => None
    case Exec(argv) =>
      var m := "Command `" + Join(QuoteAll(argv), " ") + "` failed with exit code " + IntToString(e.exitstatus);
      assert m[..9] == "Command `";
      Some(m)
  }

  // ----- argument vectors -----

  function ListSnapshotsArgv(x: string): seq<string> { [x, "snapshot", "list", "-raw"] }
  function ListMirrorsArgv(x: string): seq<string> { [x, "mirror", "list", "-raw"] }
  function ListPublishArgv(x: string): seq<string> { [x, "publish", "list", "-raw"] }
  function UpdateArgv(x: string, mirror: string): seq<string> { [x, "mirror", "update", mirror] }
  function ShowArgv(x: string, name: string): seq<string> { [x, "snapshot", "show", name] }
  function DropArgv(x: string, name: string): seq<string> { [x, "snapshot", "drop", name] }
  function DiffArgv(x: string, a: string, b: string): seq<string> { [x, "snapshot", "diff", a, b] }
  function CleanupArgv(x: string): seq<string> { [x, "db", "cleanup"] }

  function FromMirrorArgv(x: string, name: string, mirror: string): seq<string> {
    [x, "snapshot", "create", name, "from", "mirror", mirror]
  }

  function FromRepoArgv(x: string, name: string, repo: string): seq<string> {
    [x, "snapshot", "create", name, "from", "repo", repo]
  }

  function MergeArgv(x: string, name: string, sources: seq<string>): seq<string> {
    [x, "snapshot", "merge", name] + sources
  }

  const ComponentFlag := "-component="

  function Keys(components: seq<(string, string)>): (r: seq<string>)
    ensures |r| == |components| && forall k :: 0 <= k < |r| ==> r[k] == components[k].0
  {
    if components == [] then [] else [components[0].0] + Keys(components[1..])
  }

  function Names(components: seq<(string, string)>): (r: seq<string>)
    ensures |r| == |components| && forall k :: 0 <= k < |r| ==> r[k] == components[k].1
  {
    if components == [] then [] else [components[0].1] + Names(components[1..])
  }

  /** `publish switch` of the gateway class. */
  function SwitchArgv(x: string, prefix: string, distribution: string, components: seq<(string, string)>): seq<string> {
    [x, "publish", "switch", ComponentFlag + Join(Keys(components), ","), "-force-overwrite=true",
     distribution, prefix] + Names(components)
  }

  /** `publish snapshot` of the gateway class. */
  function CreatePublishArgv(x: string, prefix: string, distribution: string,
                             components: seq<(string, string)>, architectures: seq<string>): seq<string> {
    [x, "publish", "snapshot", "-distribution=" + distribution,
     "-architectures=" + Join(architectures, ","), ComponentFlag + Join(Keys(components), ",")]
    + Names(components) + [prefix]
  }

  /** `publish switch` of the older script: no `-force-overwrite`. */
  function LegacySwitchArgv(x: string, prefix: string, distribution: string, components: seq<(string, string)>): seq<string> {
    [x, "publish", "switch", ComponentFlag + Join(Keys(components), ","), distribution, prefix] + Names(components)
  }

  /** `publish snapshot` of the older script: no `-architectures`. */
  function LegacyCreatePublishArgv(x: string, prefix: string, distribution: string,
                                   components: seq<(string, string)>): seq<string> {
    [x, "publish", "snapshot", "-distribution=" + distribution, ComponentFlag + Join(Keys(components), ",")]
    + Names(components) + [prefix]
  }

  /** The `-component=` list names the components in the order their
      snapshots follow, so the tool pairs them up again. */
  lemma ComponentOrderMatches(x: string, prefix: string, distribution: string, components: seq<(string, string)>)
    requires |components| > 0
    requires forall k :: 0 <= k < |components| ==> ',' !in components[k].0
    ensures var argv := SwitchArgv(x, prefix, distribution, components);
      Fields(argv[3][|ComponentFlag|..], ",") == Keys(components) && argv[7..] == Names(components)
  {
    ComponentListRoundTrip(Keys(components));
    SwitchArgvParts(x, prefix, distribution, components);
  }

  lemma SwitchArgvParts(x: string, prefix: string, distribution: string, components: seq<(string, string)>)
    ensures var argv := SwitchArgv(x, prefix, distribution, components);
      argv[3] == ComponentFlag + Join(Keys(components), ",") && argv[7..] == Names(components)
  {
  }

  /** The text after `-component=` splits back into the component names. */
  lemma ComponentListRoundTrip(keys: seq<string>)
    requires |keys| > 0
    requires forall k :: 0 <= k < |keys| ==> ',' !in keys[k]
    ensures Fields((ComponentFlag + Join(keys, ","))[|ComponentFlag|..], ",") == keys
  {
    forall k | 0 <= k < |keys| ensures Delimited(keys[k], ",") {
      DelimitedWithoutLead(keys[k], ",");
    }
    FieldsOfJoin(keys, ",");
    DropLead(ComponentFlag, Join(keys, ","));
  }

  lemma DropLead(lead: string, rest: string)
    ensures (lead + rest)[|lead|..] == rest
  {
  }


  // ----- the publish path -----

  /** `k` is a slash followed by a character that is not a slash. */
  predicate Boundary(path: string, k: nat) {
    k + 1 < |path| && path[k] == '/' && path[k + 1] != '/'
  }

  /** The last boundary below `n`. */
  function LastBoundary(path: string, n: nat): (r: Option<nat>)
    requires n <= |path|
    ensures r.Some? ==> r.value < n && Boundary(path, r.value)
    ensures r.Some? ==> forall j: nat :: r.value < j < n ==> !Boundary(path, j)
    ensures r.None? ==> forall j: nat :: j < n ==> !Boundary(path, j)
  {
    if n == 0 then None
    else if Boundary(path, n - 1) then Some(n - 1)
    else LastBoundary(path, n - 1)
  }

  /** The longest prefix of `s` without a slash (`[^/]+` from the start). */
  function NameRun(s: string): (r: string)
    ensures |r| <= |s| && r == s[..|r|] && '/' !in r
    ensures |r| < |s| ==> s[|r|] == '/'
  {
    if s == [] || s[0] == '/' then "" else [s[0]] + NameRun(s[1..])
  }

  /** `path.match(%r{(?:(.*)/)?([^/]+)}).captures` with a missing prefix read
      as `.`. The greedy `(.*)` reaches the last slash that is followed by a
      name; `None` is the failed match (the path has no character other than
      a slash), on which the Ruby code raises. */
  function SplitPath(path: string): Option<(string, string)> {
    match LastBoundary(path, |path|)
    case Some(k) => Some((path[..k], NameRun(path[k + 1..])))
    case None =>
      if |path| > 0 && path[0] != '/' then Some((".", NameRun(path))) else None
  }

  /** The line `publish list -raw` prints for a publishing point. */
  function PointKey(prefix: string, distribution: string): string {
    prefix + " " + distribution
  }

  /** Splitting recovers the prefix and the distribution of a path written as
      `prefix/distribution`, and a bare distribution gets the prefix `.`. */
  lemma SplitPathRoundTrip(prefix: string, distribution: string)
    requires |distribution| > 0 && '/' !in distribution
    ensures SplitPath(prefix + "/" + distribution) == Some((prefix, distribution))
    ensures SplitPath(distribution) == Some((".", distribution))
  {
    var path := prefix + "/" + distribution;
    var k := |prefix|;
    assert Boundary(path, k);
    forall j: nat | k < j < |path| ensures !Boundary(path, j) {
      assert path[j] == distribution[j - k - 1];
    }
    assert path[..k] == prefix && path[k + 1..] == distribution;
    NameRunWhole(distribution);
    forall j: nat | j < |distribution| ensures !Boundary(distribution, j) {
      assert distribution[j] in distribution;
    }
  }

  lemma NameRunWhole(s: string)
    requires '/' !in s
    ensures NameRun(s) == s
  {
    if s != [] {
      assert s[0] in s;
      assert forall c :: c in s[1..] ==> c in s;
      NameRunWhole(s[1..]);
    }
  }

  /** Whatever the path, a successful split yields a non-empty distribution
      without slashes. */
  lemma SplitPathDistribution(path: string)
    requires SplitPath(path).Some?
    ensures var d := SplitPath(path).value.1; |d| > 0 && '/' !in d
  {
  }

  // ----- `snapshot show`, `snapshot diff`, `snapshot drop` -----

  const DescriptionLabel := "Description: "
  const MergedLabel := "Merged from sources: "
  const IdenticalText := "Snapshots are identical"
  const PublishedText := "ERROR: unable to drop: snapshot is published"
  const SourceText := "ERROR: won't delete snapshot that was used as source for other snapshots"

  function FirstStartingWith(lines: seq<string>, p: string): (r: Option<string>)
    ensures r.Some? ==> r.value in lines && StartsWith(r.value, p)
    ensures r.None? ==> forall k :: 0 <= k < |lines| ==> !StartsWith(lines[k], p)
  {
    if lines == [] then None
    else if StartsWith(lines[0], p) then Some(lines[0])
    else FirstStartingWith(lines[1..], p)
  }

  /** The description in `snapshot show` output: the first line starting with
      `Description: `, without that label; `None` when there is none. */
  function DescriptionOf(show: string): Option<string> {
    match FirstStartingWith(ChompedLines(show), DescriptionLabel)
    case None => None
    case Some(line) => Some(line[|DescriptionLabel|..])
  }

  /** The `snapshot show` output the model's tool prints. */
  function ShowOutput(name: string, description: string): string {
    Listing(["Name: " + name, DescriptionLabel + description])
  }

  predicate OneLine(s: string) {
    '\n' !in s && (|s| == 0 || s[|s| - 1] != '\r')
  }

  /** The description printed by `snapshot show` is the one read back. */
  lemma DescriptionOfShowOutput(name: string, description: string)
    requires OneLine(name) && OneLine(description)
    ensures DescriptionOf(ShowOutput(name, description)) == Some(description)
  {
    var l1 := "Name: " + name;
    var l2 := DescriptionLabel + description;
    ShowOutputLines(name, description);
    assert !StartsWith(l1, DescriptionLabel) by {
      assert l1[0] == 'N' && DescriptionLabel[0] == 'D';
    }
    assert StartsWith(l2, DescriptionLabel);
    assert FirstStartingWith([l1, l2], DescriptionLabel) == Some(l2) by {
      assert [l1, l2][1..] == [l2];
    }
    assert l2[|DescriptionLabel|..] == description;
  }

  lemma ShowOutputLines(name: string, description: string)
    requires OneLine(name) && OneLine(description)
    ensures ChompedLines(ShowOutput(name, description)) == ["Name: " + name, DescriptionLabel + description]
  {
    var l1 := "Name: " + name;
    var l2 := DescriptionLabel + description;
    OneLineConcat("Name: ", name);
    OneLineConcat(DescriptionLabel, description);
    ListingRoundTrip([l1, l2]);
  }

  lemma OneLineConcat(a: string, b: string)
    requires OneLine(a) && OneLine(b)
    ensures OneLine(a + b)
  {
    assert forall c :: c in a + b ==> c in a || c in b;
  }

  lemma ChompOneLine(s: string)
    requires OneLine(s)
    ensures Chomp(s) == s
  {
    if |s| > 0 {
      assert s[|s| - 1] in s;
    }
  }

  /** `s.sub(/^'(.*)'$/, '\1')`: one pair of surrounding single quotes goes. */
  function Unquote(s: string): string {
    if |s| >= 2 && s[0] == '\'' && s[|s| - 1] == '\'' then s[1..|s| - 1] else s
  }

  function UnquoteAll(xs: seq<string>): (r: seq<string>)
    ensures |r| == |xs| && forall k :: 0 <= k < |xs| ==> r[k] == Unquote(xs[k])
  {
    if xs == [] then [] else [Unquote(xs[0])] + UnquoteAll(xs[1..])
  }

  predicate IsMergeDescription(description: string) {
    StartsWith(description, MergedLabel)
  }

  /** The snapshots a merge was made from, as `drop_snapshot` reads them: the
      text after `Merged from sources: ` split on `", "` with the quotes
      removed; nothing for any other description. */
  function Lineage(description: string): seq<string> {
    if IsMergeDescription(description)
    then UnquoteAll(RubySplit(description[|MergedLabel|..], ", "))
    else []
  }

  /** The description the tool gives a merge snapshot. */
  function MergeDescription(sources: seq<string>): string {
    MergedLabel + Join(QuoteAll(sources), ", ")
  }

  /** Reading the lineage back from a merge description gives the sources,
      in order, as long as no source name contains `", "`. */
  lemma LineageOfMergeDescription(sources: seq<string>)
    requires forall k :: 0 <= k < |sources| ==> !Contains(sources[k], ", ")
    ensures Lineage(MergeDescription(sources)) == sources
  {
    var quoted := QuoteAll(sources);
    DropLead(MergedLabel, Join(quoted, ", "));
    assert MergeDescription(sources)[..|MergedLabel|] == MergedLabel;
    if sources != [] {
      forall k | 0 <= k < |quoted| ensures Delimited(quoted[k], ", ") {
        QuotedIsDelimited(sources[k]);
      }
      assert quoted[|quoted| - 1][0] == '\'';
      RubySplitOfJoin(quoted, ", ");
    }
    UnquoteQuoteAll(sources);
  }

  lemma UnquoteQuoteAll(sources: seq<string>)
    ensures UnquoteAll(QuoteAll(sources)) == sources
  {
    var quoted := QuoteAll(sources);
    forall k | 0 <= k < |quoted| ensures Unquote(quoted[k]) == sources[k] {
      assert quoted[k][1..|quoted[k]| - 1] == sources[k];
    }
  }

  lemma {:induction false} JoinLength(parts: seq<string>, d: string)
    requires |parts| > 0
    ensures |Join(parts, d)| >= |parts[0]|
  {
  }

  lemma QuotedIsDelimited(a: string)
    requires !Contains(a, ", ")
    ensures Delimited(Quote(a), ", ")
  {
    var q := Quote(a) + ", ";
    assert q[0] == '\'' && q[|a| + 1] == '\'';
    forall j: nat | j < |Quote(a)| ensures !OccursAt(q, ", ", j) {
      if j == 0 || j == |a| + 1 {
        assert q[j] != ',';
      } else if j == |a| {
        assert q[j + 1] != ' ';
      } else {
        assert !OccursAt(a, ", ", j - 1);
        assert q[j..j + 2] == a[j - 1..j + 1];
      }
    }
  }

  /** `snapshot_diff`: the two snapshots differ unless the output mentions
      `Snapshots are identical`. */
  function SnapshotsDiffer(output: string): (r: bool)
    ensures r <==> !Contains(output, IdenticalText)
  {
    IndexOf(output, IdenticalText).None?
  }

  /** How `drop_snapshot` reads a failed `snapshot drop`. */
  datatype DropFailure = PublishedElsewhere | MergedElsewhere | Fatal

  function ClassifyDropFailure(output: string): (r: DropFailure)
    ensures r == PublishedElsewhere <==> HasLineStarting(output, PublishedText)
    ensures r == MergedElsewhere <==> !HasLineStarting(output, PublishedText) && HasLineStarting(output, SourceText)
    ensures r == Fatal <==> !HasLineStarting(output, PublishedText) && !HasLineStarting(output, SourceText)
  {
    if HasLineStarting(output, PublishedText) then PublishedElsewhere
    else if HasLineStarting(output, SourceText) then MergedElsewhere
    else Fatal
  }

  // ----- the script placeholder -----

  const Placeholder := "##APTLY##"

  /** `cmd.gsub!(%r{##APTLY##}, aptly_cmd)`. */
  function SubstituteCommand(script: string, aptly: string): string {
    ReplaceAll(script, Placeholder, aptly)
  }

  /** Every placeholder between pieces of script text that hold no `#` is
      replaced by the aptly command, and nothing else changes. */
  lemma SubstituteBetweenPieces(pieces: seq<string>, aptly: string)
    requires |pieces| > 0 && forall k :: 0 <= k < |pieces| ==> '#' !in pieces[k]
    ensures SubstituteCommand(Join(pieces, Placeholder), aptly) == Join(pieces, aptly)
  {
    forall k | 0 <= k < |pieces| ensures Delimited(pieces[k], Placeholder) {
      DelimitedWithoutLead(pieces[k], Placeholder);
    }
    ReplaceAllOfJoin(pieces, Placeholder, aptly);
  }

  // ----- `list -raw` output -----

  /** What `snapshot list -raw`, `mirror list -raw` and `publish list -raw`
      print: one name per line. */
  function Listing(names: seq<string>): string {
    if names == [] then "" else names[0] + "\n" + Listing(names[1..])
  }

  lemma {:induction false} ListingIsJoin(names: seq<string>)
    ensures Listing(names) == Join(names + [""], "\n")
  {
    if names != [] {
      ListingIsJoin(names[1..]);
      assert (names + [""])[1..] == names[1..] + [""];
    }
  }

  /** `.lines.map(&:chomp)` gives back the listed names. */
  lemma ListingRoundTrip(names: seq<string>)
    requires forall k :: 0 <= k < |names| ==> OneLine(names[k])
    ensures ChompedLines(Listing(names)) == names
  {
    if names != [] {
      ListingFields(names);
      var fs := Fields(Listing(names), "\n");
      assert fs[..|fs| - 1] == names;
      var lines := ChompedLines(Listing(names));
      assert |lines| == |names|;
      forall k | 0 <= k < |names| ensures lines[k] == names[k] {
        ChompOneLine(names[k]);
      }
    }
  }

  lemma ListingFields(names: seq<string>)
    requires names != [] && forall k :: 0 <= k < |names| ==> OneLine(names[k])
    ensures Listing(names) != "" && Fields(Listing(names), "\n") == names + [""]
  {
    var parts := names + [""];
    ListingIsJoin(names);
    forall k | 0 <= k < |parts| ensures '\n' !in parts[k] {
      if k < |names| {
        assert parts[k] == names[k];
      }
    }
    FieldsOfJoinWithoutLead(parts, "\n");
  }

  // ----- `mirror create` -----

  /** `{ defaults }.merge(config)[key]`: the configured value, even `nil`,
      wins over the default. */
  function Setting(config: Value, key: string, default: Value): Value
    requires config.Hash?
  {
    if HasKey(config, key) then Get(config, key) else default
  }

  /** The RunError (status 255, no command) raised when `location` or
      `release` is not set. */
  function MissingSetting(name: string, config: Value): (r: Option<RunError>)
    requires config.Hash?
    ensures r.None? <==> Truthy(Get(config, "location")) && Truthy(Get(config, "release"))
    ensures r.Some? ==> r.value.command == Exec([]) && r.value.exitstatus == 255
  {
    if !Truthy(Get(config, "location")) then Some(RunError(Exec([]), 255, "Mirror " + name + " has no location"))
    else if !Truthy(Get(config, "release")) then Some(RunError(Exec([]), 255, "Mirror " + name + " has no release"))
    else None
  }

  /** `flag + value.to_s`. */
  function FlagText(flag: string, v: Value): (r: Result<string, Error>)
    ensures r.Ok? <==> ToS(v).Some?
    ensures r.Ok? ==> r.value == flag + ToS(v).value
  {
    match ToS(v)
    case None => Err(Fault("to_s of an Array or Hash is not modelled"))
    case Some(t) => Ok(flag + t)
  }

  /** `-architectures=` unless the setting is empty: the list is flattened
      and joined with commas. A non-empty string has no `flatten`; `nil`
      and numbers have no `empty?`. */
  function ArchitecturesFlag(v: Value): (r: Result<seq<string>, Error>)
    ensures v == List([]) || v == Str("") || v == Hash([]) ==> r == Ok([])
    ensures v.Str? && v.s != "" ==> r.Err?
    ensures v.List? && v.items != [] ==>
      (r.Ok? <==> JoinItems(Flatten(v.items), ",").Some?)
      && (r.Ok? ==> r.value == ["-architectures=" + JoinItems(Flatten(v.items), ",").value])
    ensures v.Nil? || v.Bool? || v.Int? ==> r.Err?
  {
    match v
    case Str(a) => if a == "" then Ok([]) else Err(Fault("NoMethodError: undefined method `flatten' for String"))
    case List(items) =>
      if items == [] then Ok([])
      else
        var flat := Flatten(items);
        if JoinItems(flat, ",").None? then Err(Fault("to_s of a Hash is not modelled"))
        else Ok(["-architectures=" + JoinItems(flat, ",").value])
    case Hash(entries) => if entries == [] then Ok([]) else Err(Fault("flatten of a Hash is not modelled"))
    case _ => Err(Fault("NoMethodError: undefined method `empty?'"))
  }

  /** A non-empty list of architecture names gives one flag naming them all,
      comma-separated, in order. */
  lemma ArchitecturesOfNames(names: seq<string>)
    requires names != []
    ensures ArchitecturesFlag(List(Strs(names))) == Ok(["-architectures=" + Join(names, ",")])
  {
    JoinItemsOfStrings(names, ",");
  }

  /** An empty list among the architectures leaves no empty field: it is
      flattened away before the join. */
  lemma ArchitecturesSkipEmptyList(a: string, b: string)
    ensures ArchitecturesFlag(List([Str(a), List([]), Str(b)])) == Ok(["-architectures=" + a + "," + b])
  {
    var items := [Str(a), List([]), Str(b)];
    assert items[1..][1..] == items[2..] == [Str(b)];
    assert Flatten(items[1..]) == [Str(b)];
    assert Flatten(items) == [Str(a), Str(b)];
    assert [Str(a), Str(b)][1..] == [Str(b)];
    assert JoinItem(Str(a), ",") == Some(a) && JoinItem(Str(b), ",") == Some(b);
    assert JoinItems([Str(b)], ",") == Some(b);
    assert JoinItems([Str(a), Str(b)], ",") == Some(a + "," + b);
    assert JoinItems(Flatten(items), ",") == Some(a + "," + b);
    assert "-architectures=" + (a + "," + b) == "-architectures=" + a + "," + b;
    assert ArchitecturesFlag(List(items)) == Ok(["-architectures=" + (a + "," + b)]);
  }

  /** `-filter="..."` unless the filter is empty; only a string can be
      appended to the flag. */
  function FilterFlag(v: Value): (r: Result<seq<string>, Error>)
    ensures v.Str? ==> r.Ok? && (r.value == [] <==> v.s == "")
    ensures r.Ok? && r.value != [] ==> v.Str? && r.value == ["-filter=\"" + v.s + "\""]
  {
    match v
    case Str(f) => if f == "" then Ok([]) else Ok(["-filter=\"" + f + "\""])
    case List(items) => if items == [] then Ok([]) else Err(Fault("TypeError: no implicit conversion of Array into String"))
    case Hash(entries) => if entries == [] then Ok([]) else Err(Fault("TypeError: no implicit conversion of Hash into String"))
    case _ => Err(Fault("NoMethodError: undefined method `empty?'"))
  }

  /** The flags appended before the version check. */
  function MirrorFlags(config: Value): (r: Result<seq<string>, Error>)
    requires config.Hash?
    ensures var archs := ArchitecturesFlag(Setting(config, "architectures", List([])));
      var sources := ToS(Setting(config, "with_sources", Bool(false)));
      var udebs := ToS(Setting(config, "with_udebs", Bool(false)));
      var filter := FilterFlag(Setting(config, "filter", Str("")));
      (r.Ok? <==> archs.Ok? && sources.Some? && udebs.Some? && filter.Ok?)
      && (r.Ok? ==> r.value == archs.value + ["-with-sources=" + sources.value, "-with-udebs=" + udebs.value] + filter.value)
  {
    var archs :- ArchitecturesFlag(Setting(config, "architectures", List([])));
    var sources :- FlagText("-with-sources=", Setting(config, "with_sources", Bool(false)));
    var udebs :- FlagText("-with-udebs=", Setting(config, "with_udebs", Bool(false)));
    var filter :- FilterFlag(Setting(config, "filter", Str("")));
    Ok(archs + [sources, udebs] + filter)
  }

  /** `config['repos'].join(' ') unless config['repos'].empty?`; there is no
      default, so a missing `repos` fails on `nil.empty?`. */
  function ReposArgument(v: Value): (r: Result<seq<string>, Error>)
    ensures v.Nil? ==> r.Err?
    ensures v == List([]) ==> r == Ok([])
  {
    match v
    case Str(a) => if a == "" then Ok([]) else Err(Fault("NoMethodError: undefined method `join' for String"))
    case List(items) =>
      if items == [] then Ok([])
      else if JoinItems(items, " ").None? then Err(Fault("to_s of a Hash is not modelled"))
      else Ok([JoinItems(items, " ").value])
    case Hash(entries) => if entries == [] then Ok([]) else Err(Fault("NoMethodError: undefined method `join' for Hash"))
    case _ => Err(Fault("NoMethodError: undefined method `empty?'"))
  }

  /** The arguments appended after the version check: `-force-components`
      only when the tool supports it, then `-filter-with-deps`, the name,
      location, release and the joined repos. Location and release must be
      strings to be passed to the process. */
  function MirrorTail(name: string, config: Value, forceComponents: bool): (r: Result<seq<string>, Error>)
    requires config.Hash?
    ensures r.Ok? <==>
      (forceComponents ==> ToS(Setting(config, "force_components", Bool(false))).Some?)
      && ReposArgument(Get(config, "repos")).Ok?
      && Get(config, "location").Str? && Get(config, "release").Str?
    ensures r.Ok? ==>
      var force := if forceComponents then ["-force-components=" + ToS(Setting(config, "force_components", Bool(false))).value] else [];
      var deps := if Truthy(Setting(config, "filter_with_deps", Bool(false))) then ["-filter-with-deps"] else [];
      var tail := [name, Get(config, "location").s, Get(config, "release").s] + ReposArgument(Get(config, "repos")).value;
      r.value == force + deps + tail
  {
    var force :-
      if forceComponents
      then (match FlagText("-force-components=", Setting(config, "force_components", Bool(false)))
            case Ok(f) => Ok([f])
            case Err(e) => Err(e))
      else Ok([]);
    var deps := if Truthy(Setting(config, "filter_with_deps", Bool(false))) then ["-filter-with-deps"] else [];
    var repos :- ReposArgument(Get(config, "repos"));
    var location := Get(config, "location");
    var release := Get(config, "release");
    if !location.Str? || !release.Str? then Err(Fault("TypeError: no implicit conversion into String"))
    else
      Ok(force + deps + [name, location.s, release.s] + repos)
  }

  /** The whole `mirror create` argument vector. */
  function MirrorCreateArgv(x: string, flags: seq<string>, tail: seq<string>): seq<string> {
    [x, "mirror", "create"] + flags + tail
  }

  /** A mirror configured with only a location, a release and an empty repos
      list gets the default flags: no architectures, no sources, no udebs,
      no filter, and `-force-components=false` when the tool supports it. */
  lemma MirrorDefaults(name: string, location: string, release: string, forceComponents: bool)
    ensures var config := Hash([("location", Str(location)), ("release", Str(release)), ("repos", List([]))]);
      MirrorFlags(config) == Ok(["-with-sources=false", "-with-udebs=false"])
      && MirrorTail(name, config, forceComponents)
         == Ok((if forceComponents then ["-force-components=false"] else []) + [name, location, release])
  {
    var config := Hash([("location", Str(location)), ("release", Str(release)), ("repos", List([]))]);
    assert !HasKey(config, "architectures") && !HasKey(config, "with_sources") && !HasKey(config, "with_udebs");
    assert !HasKey(config, "filter") && !HasKey(config, "force_components") && !HasKey(config, "filter_with_deps");
    var e := config.entries;
    assert e[1..] == [("release", Str(release)), ("repos", List([]))];
    assert e[1..][1..] == [("repos", List([]))];
    assert KeyIndex(e[1..][1..], "repos") == Some(0);
    assert KeyIndex(e[1..], "repos") == Some(1);
    assert KeyIndex(e, "repos") == Some(2);
    assert KeyIndex(e, "location") == Some(0);
    assert KeyIndex(e, "release") == Some(1);
    assert ToS(Bool(false)) == Some("false");
    assert "-with-sources=" + "false" == "-with-sources=false";
    assert "-with-udebs=" + "false" == "-with-udebs=false";
    assert "-force-components=" + "false" == "-force-components=false";
    assert FlagText("-with-sources=", Bool(false)) == Ok("-with-sources=false");
    assert FlagText("-with-udebs=", Bool(false)) == Ok("-with-udebs=false");
    assert FlagText("-force-components=", Bool(false)) == Ok("-force-components=false");
    assert Setting(config, "architectures", List([])) == List([]);
    assert Setting(config, "filter", Str("")) == Str("");
    assert ArchitecturesFlag(List([])) == Ok([]) && FilterFlag(Str("")) == Ok([]);
    assert ReposArgument(List([])) == Ok([]);
    assert !Truthy(Setting(config, "filter_with_deps", Bool(false)));
    var flags: seq<string> := ["-with-sources=false", "-with-udebs=false"];
    assert [] + flags + [] == flags;
    var force: seq<string> := if forceComponents then ["-force-components=false"] else [];
    assert force + [] + ([name, location, release] + []) == force + [name, location, release];
  }

  // ----- one-line texts -----

  lemma {:induction false} JoinHasNoNewline(parts: seq<string>, d: string)
    requires '\n' !in d && forall k :: 0 <= k < |parts| ==> '\n' !in parts[k]
    ensures '\n' !in Join(parts, d)
  {
    if |parts| > 1 {
      JoinHasNoNewline(parts[1..], d);
      var rest := Join(parts[1..], d);
      assert forall c :: c in parts[0] + d + rest ==> c in parts[0] || c in d || c in rest;
    }
  }

  lemma {:induction false} JoinEndsWithLastPart(parts: seq<string>, d: string)
    requires |parts| > 0 && parts[|parts| - 1] != ""
    ensures var j := Join(parts, d); var last := parts[|parts| - 1];
      j != "" && j[|j| - 1] == last[|last| - 1]
  {
    if |parts| > 1 {
      JoinEndsWithLastPart(parts[1..], d);
    }
  }

  /** A merge of one-line names has a one-line description. */
  lemma MergeDescriptionOneLine(sources: seq<string>)
    requires forall k :: 0 <= k < |sources| ==> OneLine(sources[k])
    ensures OneLine(MergeDescription(sources))
  {
    var quoted := QuoteAll(sources);
    forall k | 0 <= k < |quoted| ensures '\n' !in quoted[k] {
      assert forall c :: c in quoted[k] ==> c == '\'' || c in sources[k];
    }
    JoinHasNoNewline(quoted, ", ");
    var body := Join(quoted, ", ");
    var d := MergeDescription(sources);
    assert forall c :: c in d ==> c in MergedLabel || c in body;
    if sources != [] {
      JoinEndsWithLastPart(quoted, ", ");
    }
  }
}
