/** The import of a governance bundle: a preview that lists what is missing, and the commit that needs
    it (crates/cocli-api/src/mcp_http.rs). */
module BundleImport {
  import opened Prelude
  import opened Sorting
  import opened Rebind

  // In the order of the derived comparison.
  datatype PortabilityClass = Portable | RequiresRebind | MachineLocal | Blocked
  datatype Support = Supported | ReadOnly | Unsupported | Unknown

  datatype Diagnostic = Diagnostic(
    code: string,
    classification: PortabilityClass,
    profileRef: Option<string>,
    serverId: Option<string>,
    field: Option<string>,
    rebindKey: Option<string>)

  datatype SecretRef = SecretRef(location: string, reference: string)
  datatype Definition = Definition(command: Option<string>, args: seq<string>, endpoint: Option<string>)
  datatype Server = Server(
    serverId: string, runtime: string, secretRefs: seq<SecretRef>, definition: Option<Definition>)
  datatype Profile = Profile(profileRef: string, servers: seq<Server>)
  datatype TargetType = Machine | Workspace | Agent
  datatype Binding = Binding(profileRef: string, targetRef: string, targetType: TargetType)
  datatype Expectation = Expectation(runtime: string, operations: seq<(string, Support)>)

  datatype Bundle = Bundle(
    profiles: seq<Profile>,
    bindings: seq<Binding>,
    portability: seq<Diagnostic>,
    expectations: seq<Expectation>)

  datatype ProfileTarget = ProfileTarget(profileId: string, expectedVersion: int)

  datatype Rebindings = Rebindings(
    targets: map<string, string>,
    runtimes: map<string, string>,
    secretRefs: map<string, string>,
    machineLocalValues: map<string, string>,
    profiles: map<string, ProfileTarget>)

  /** What the importing installation holds: profile versions, runtime capabilities, binding targets. */
  datatype Destination = Destination(
    profileVersions: map<string, int>,
    runtimes: map<string, map<string, Support>>,
    targets: set<(TargetType, string)>)

  function RuntimeKey(runtime: string): string {
    "runtime:" + runtime
  }

  // ---- Lists of reports and of results ------------------------------------------------------------

  /** What is reported for the elements, one after the other. */
  function Collect<T>(xs: seq<T>, report: T -> seq<Diagnostic>): seq<Diagnostic> {
    if xs == [] then [] else Collect(xs[..|xs| - 1], report) + report(xs[|xs| - 1])
  }

  lemma CollectNext<T>(xs: seq<T>, i: nat, report: T -> seq<Diagnostic>)
    requires i < |xs|
    ensures Collect(xs[..i + 1], report) == Collect(xs[..i], report) + report(xs[i])
  {
    assert xs[..i + 1][..i] == xs[..i];
  }

  /** All results, or `None` when one is missing. */
  function Traverse<A, B>(xs: seq<A>, f: A -> Option<B>): (r: Option<seq<B>>)
    ensures r.Some? <==> forall i :: 0 <= i < |xs| ==> f(xs[i]).Some?
    ensures r.Some? ==> |r.value| == |xs| && forall i :: 0 <= i < |xs| ==> f(xs[i]) == Some(r.value[i])
  {
    if xs == [] then Some([])
    else
      var init, last := Traverse(xs[..|xs| - 1], f), f(xs[|xs| - 1]);
      if init.None? || last.None? then None else Some(init.value + [last.value])
  }

  // ---- The preview ------------------------------------------------------------------------------

  function Rank(s: Support): nat {
    match s case Supported => 0 case ReadOnly => 1 case Unsupported => 2 case Unknown => 3
  }

  /** Only what the export found blocked or machine-local is carried over. */
  function Carried(): Diagnostic -> seq<Diagnostic> {
    (d: Diagnostic) => if d.classification in {Blocked, MachineLocal} then [d] else []
  }

  function ActualSupport(actual: map<string, Support>, operation: string): Support {
    if operation in actual then actual[operation] else Unknown
  }

  function OperationReport(e: Expectation, runtime: string, actual: map<string, Support>)
    : ((string, Support)) -> seq<Diagnostic>
  {
    (operation: (string, Support)) =>
      if Rank(ActualSupport(actual, operation.0)) < Rank(operation.1) then
        [Diagnostic("capability_mismatch", RequiresRebind, None, None,
                    Some(runtime + "." + operation.0), Some(RuntimeKey(e.runtime)))]
      else []
  }

  function ExpectedRuntime(e: Expectation, rb: Rebindings): string {
    var key := RuntimeKey(e.runtime);
    if key in rb.runtimes then rb.runtimes[key] else e.runtime
  }

  function RuntimeMissing(e: Expectation): Diagnostic {
    Diagnostic("runtime_missing", RequiresRebind, None, None, Some("runtime"), Some(RuntimeKey(e.runtime)))
  }

  function ExpectationReport(rb: Rebindings, dest: Destination): Expectation -> seq<Diagnostic> {
    (e: Expectation) =>
      var runtime := ExpectedRuntime(e, rb);
      if runtime in dest.runtimes then Collect(e.operations, OperationReport(e, runtime, dest.runtimes[runtime]))
      else [RuntimeMissing(e)]
  }

  function ProfileTargetReport(p: Profile, rb: Rebindings, dest: Destination): seq<Diagnostic> {
    if p.profileRef !in rb.profiles then []
    else
      var target := rb.profiles[p.profileRef];
      if target.profileId !in dest.profileVersions then
        [Diagnostic("profile_rebind_missing_target", Blocked, Some(p.profileRef), None,
                    Some("profiles"), Some(p.profileRef))]
      else if dest.profileVersions[target.profileId] != target.expectedVersion then
        [Diagnostic("profile_version_conflict", Blocked, Some(p.profileRef), None,
                    Some("profiles"), Some(p.profileRef))]
      else []
  }

  /** The prefixed key, or else the bare runtime name. */
  function RuntimeReport(p: Profile, s: Server, rb: Rebindings, dest: Destination): seq<Diagnostic> {
    var key := RuntimeKey(s.runtime);
    if key !in rb.runtimes && s.runtime !in rb.runtimes then
      [Diagnostic("runtime_rebind_missing", RequiresRebind, Some(p.profileRef), Some(s.serverId),
                  Some("runtime"), Some(key))]
    else
      var runtime := if key in rb.runtimes then rb.runtimes[key] else rb.runtimes[s.runtime];
      if runtime in dest.runtimes then []
      else
        [Diagnostic("runtime_installation_missing", Blocked, Some(p.profileRef), Some(s.serverId),
                    Some("runtime"), Some(key))]
  }

  function SecretReport(p: Profile, s: Server, rb: Rebindings): SecretRef -> seq<Diagnostic> {
    (secret: SecretRef) =>
      if secret.reference in rb.secretRefs then []
      else
        [Diagnostic("secret_ref_rebind_missing", RequiresRebind, Some(p.profileRef), Some(s.serverId),
                    Some("secretRefs." + secret.location), Some(secret.reference))]
  }

  function KeyReport(p: Profile, s: Server, rb: Rebindings): string -> seq<Diagnostic> {
    (key: string) =>
      if key in rb.machineLocalValues then []
      else
        [Diagnostic("machine_local_rebind_missing", RequiresRebind, Some(p.profileRef), Some(s.serverId),
                    Some("definition"), Some(key))]
  }

  function ValueReport(p: Profile, s: Server, rb: Rebindings): string -> seq<Diagnostic> {
    (value: string) => Collect(Placeholders(value), KeyReport(p, s, rb))
  }

  function Optional(o: Option<string>): seq<string> {
    if o.Some? then [o.value] else []
  }

  /** Command, arguments and endpoint, in this order. */
  function Values(d: Option<Definition>): seq<string> {
    if d.None? then [] else Optional(d.value.command) + d.value.args + Optional(d.value.endpoint)
  }

  function ServerReport(p: Profile, rb: Rebindings, dest: Destination): Server -> seq<Diagnostic> {
    (s: Server) =>
      RuntimeReport(p, s, rb, dest)
      + Collect(s.secretRefs, SecretReport(p, s, rb))
      + Collect(Values(s.definition), ValueReport(p, s, rb))
  }

  function ProfileReport(rb: Rebindings, dest: Destination): Profile -> seq<Diagnostic> {
    (p: Profile) => ProfileTargetReport(p, rb, dest) + Collect(p.servers, ServerReport(p, rb, dest))
  }

  function BindingReport(rb: Rebindings, dest: Destination): Binding -> seq<Diagnostic> {
    (b: Binding) =>
      if b.targetRef !in rb.targets then
        [Diagnostic("target_rebind_missing", RequiresRebind, Some(b.profileRef), None,
                    Some("binding.target"), Some(b.targetRef))]
      else if (b.targetType, rb.targets[b.targetRef]) !in dest.targets then
        [Diagnostic("target_missing", Blocked, Some(b.profileRef), None,
                    Some("binding.target"), Some(b.targetRef))]
      else []
  }

  /** Everything the preview reports, in the order it is found. */
  function AllDiagnostics(bundle: Bundle, rb: Rebindings, dest: Destination): seq<Diagnostic> {
    Collect(bundle.portability, Carried())
    + Collect(bundle.expectations, ExpectationReport(rb, dest))
    + Collect(bundle.profiles, ProfileReport(rb, dest))
    + Collect(bundle.bindings, BindingReport(rb, dest))
  }

  // ---- Sorting, removing duplicates, counting -----------------------------------------------------

  predicate StringLe(a: string, b: string) {
    a == [] || (b != [] && (a[0] < b[0] || (a[0] == b[0] && StringLe(a[1..], b[1..]))))
  }

  predicate OptionLe(a: Option<string>, b: Option<string>) {
    a.None? || (b.Some? && StringLe(a.value, b.value))
  }

  function ClassRank(c: PortabilityClass): nat {
    match c case Portable => 0 case RequiresRebind => 1 case MachineLocal => 2 case Blocked => 3
  }

  predicate DiagnosticLe(l: Diagnostic, r: Diagnostic) {
    if l.classification != r.classification then ClassRank(l.classification) < ClassRank(r.classification)
    else if l.profileRef != r.profileRef then OptionLe(l.profileRef, r.profileRef)
    else if l.serverId != r.serverId then OptionLe(l.serverId, r.serverId)
    else if l.field != r.field then OptionLe(l.field, r.field)
    else StringLe(l.code, r.code)
  }

  /** `Vec::dedup`: of neighbours that are equal only one stays. */
  function Dedup(ds: seq<Diagnostic>): (r: seq<Diagnostic>)
    ensures forall d :: d in r <==> d in ds
    ensures forall i :: 0 < i < |r| ==> r[i - 1] != r[i]
    ensures ds != [] ==> r != [] && r[|r| - 1] == ds[|ds| - 1]
  {
    if |ds| <= 1 then ds
    else
      assert ds == ds[..|ds| - 1] + [ds[|ds| - 1]];
      if ds[|ds| - 2] == ds[|ds| - 1] then Dedup(ds[..|ds| - 1])
      else Dedup(ds[..|ds| - 1]) + [ds[|ds| - 1]]
  }

  /** What remains stays in its order. */
  lemma {:induction false} DedupKeepsOrder(ds: seq<Diagnostic>, le: (Diagnostic, Diagnostic) -> bool)
    requires SortedBy(ds, le)
    ensures SortedBy(Dedup(ds), le)
  {
    if |ds| > 1 {
      var init, last := ds[..|ds| - 1], ds[|ds| - 1];
      DedupKeepsOrder(init, le);
      forall d | d in Dedup(init) ensures le(d, last) {
        assert d in init;
      }
    }
  }

  predicate Contains(s: string, part: string)
    requires part != []
  {
    Find(s, part).Some?
  }

  predicate Blocking(d: Diagnostic) {
    || d.classification == Blocked
    || Contains(d.code, "_missing")
    || Contains(d.code, "_mismatch")
    || Contains(d.code, "_conflict")
  }

  function BlockingCount(ds: seq<Diagnostic>): nat {
    if ds == [] then 0
    else BlockingCount(ds[..|ds| - 1]) + (if Blocking(ds[|ds| - 1]) then 1 else 0)
  }

  function PreviewCount(bundle: Bundle, rb: Rebindings, dest: Destination): nat {
    BlockingCount(Dedup(Sort(AllDiagnostics(bundle, rb, dest), DiagnosticLe)))
  }

  // ---- The loops that build it ---------------------------------------------------------------------

  method CheckExpectations(es: seq<Expectation>, rb: Rebindings, dest: Destination) returns (ds: seq<Diagnostic>)
    ensures ds == Collect(es, ExpectationReport(rb, dest))
  {
    ds := [];
    for i := 0 to |es|
      invariant ds == Collect(es[..i], ExpectationReport(rb, dest))
    {
      CollectNext(es, i, ExpectationReport(rb, dest));
      var runtime := ExpectedRuntime(es[i], rb);
      if runtime in dest.runtimes {
        var more := CheckEach(es[i].operations, OperationReport(es[i], runtime, dest.runtimes[runtime]));
        ds := ds + more;
      } else {
        ds := ds + [RuntimeMissing(es[i])];
      }
    }
    assert es[..|es|] == es;
  }

  /** A loop that looks at one element after the other and pushes what it has to report. */
  method CheckEach<T>(xs: seq<T>, report: T -> seq<Diagnostic>) returns (ds: seq<Diagnostic>)
    ensures ds == Collect(xs, report)
  {
    ds := [];
    for i := 0 to |xs|
      invariant ds == Collect(xs[..i], report)
    {
      CollectNext(xs, i, report);
      ds := ds + report(xs[i]);
    }
    assert xs[..|xs|] == xs;
  }

  method CheckValues(p: Profile, s: Server, rb: Rebindings) returns (ds: seq<Diagnostic>)
    ensures ds == Collect(Values(s.definition), ValueReport(p, s, rb))
  {
    var values := Values(s.definition);
    ds := [];
    for i := 0 to |values|
      invariant ds == Collect(values[..i], ValueReport(p, s, rb))
    {
      CollectNext(values, i, ValueReport(p, s, rb));
      var keys := RebindPlaceholders(values[i]);
      var more := CheckEach(keys, KeyReport(p, s, rb));
      ds := ds + more;
    }
    assert values[..|values|] == values;
  }

  method CheckServers(p: Profile, rb: Rebindings, dest: Destination) returns (ds: seq<Diagnostic>)
    ensures ds == Collect(p.servers, ServerReport(p, rb, dest))
  {
    ds := [];
    for i := 0 to |p.servers|
      invariant ds == Collect(p.servers[..i], ServerReport(p, rb, dest))
    {
      CollectNext(p.servers, i, ServerReport(p, rb, dest));
      var s := p.servers[i];
      var secrets := CheckEach(s.secretRefs, SecretReport(p, s, rb));
      var values := CheckValues(p, s, rb);
      ds := ds + (RuntimeReport(p, s, rb, dest) + secrets + values);
    }
    assert p.servers[..|p.servers|] == p.servers;
  }

  method CheckProfiles(profiles: seq<Profile>, rb: Rebindings, dest: Destination) returns (ds: seq<Diagnostic>)
    ensures ds == Collect(profiles, ProfileReport(rb, dest))
  {
    ds := [];
    for i := 0 to |profiles|
      invariant ds == Collect(profiles[..i], ProfileReport(rb, dest))
    {
      CollectNext(profiles, i, ProfileReport(rb, dest));
      var servers := CheckServers(profiles[i], rb, dest);
      ds := ds + (ProfileTargetReport(profiles[i], rb, dest) + servers);
    }
    assert profiles[..|profiles|] == profiles;
  }

  method CountBlocking(ds: seq<Diagnostic>) returns (count: nat)
    ensures count == BlockingCount(ds)
  {
    count := 0;
    for i := 0 to |ds|
      invariant count == BlockingCount(ds[..i])
    {
      assert ds[..i + 1][..i] == ds[..i];
      if Blocking(ds[i]) {
        count := count + 1;
      }
    }
    assert ds[..|ds|] == ds;
  }

  /** `build_bundle_import_preview`: the sorted diagnostics without duplicates, and how many block. */
  method BuildPreview(bundle: Bundle, rb: Rebindings, dest: Destination)
    returns (diagnostics: seq<Diagnostic>, blockingCount: nat)
    ensures diagnostics == Dedup(Sort(AllDiagnostics(bundle, rb, dest), DiagnosticLe))
    ensures blockingCount == PreviewCount(bundle, rb, dest)
  {
    var carried := CheckEach(bundle.portability, Carried());
    var expected := CheckExpectations(bundle.expectations, rb, dest);
    var profiles := CheckProfiles(bundle.profiles, rb, dest);
    var bindings := CheckEach(bundle.bindings, BindingReport(rb, dest));
    diagnostics := Dedup(Sort(carried + expected + profiles + bindings, DiagnosticLe));
    blockingCount := CountBlocking(diagnostics);
  }

  // ---- The commit ------------------------------------------------------------------------------------

  datatype ProfileMutation = ProfileMutation(profileRef: string, profileId: Option<string>,
                                             expectedVersion: Option<int>, servers: seq<Server>)
  datatype BindingMutation = BindingMutation(profileRef: string, targetRef: string, targetType: TargetType,
                                             targetId: string)
  datatype Commit = Commit(profiles: seq<ProfileMutation>, bindings: seq<BindingMutation>)

  function RebindSecret(rb: Rebindings): SecretRef -> Option<SecretRef> {
    (secret: SecretRef) =>
      if secret.reference in rb.secretRefs then Some(secret.(reference := rb.secretRefs[secret.reference])) else None
  }

  function RebindValue(rb: Rebindings): string -> Option<string> {
    (value: string) => ReplacePlaceholders(value, rb.machineLocalValues)
  }

  function RebindOptional(value: Option<string>, rb: Rebindings): Option<Option<string>> {
    if value.None? then Some(None)
    else
      var r := RebindValue(rb)(value.value);
      if r.None? then None else Some(r)
  }

  function RebindDefinition(d: Option<Definition>, rb: Rebindings): Option<Option<Definition>> {
    if d.None? then Some(None)
    else
      var command := RebindOptional(d.value.command, rb);
      var args := Traverse(d.value.args, RebindValue(rb));
      var endpoint := RebindOptional(d.value.endpoint, rb);
      if command.None? || args.None? || endpoint.None? then None
      else Some(Some(Definition(command.value, args.value, endpoint.value)))
  }

  /** `rebind_desired_server`: only the prefixed runtime key counts here. */
  function RebindServer(rb: Rebindings): Server -> Option<Server> {
    (s: Server) =>
      if RuntimeKey(s.runtime) !in rb.runtimes then None
      else
        var secrets := Traverse(s.secretRefs, RebindSecret(rb));
        var definition := RebindDefinition(s.definition, rb);
        if secrets.None? || definition.None? then None
        else Some(Server(s.serverId, rb.runtimes[RuntimeKey(s.runtime)], secrets.value, definition.value))
  }

  function CommitProfile(rb: Rebindings, isUuid: string -> bool): Profile -> Option<ProfileMutation> {
    (p: Profile) =>
      var servers := Traverse(p.servers, RebindServer(rb));
      if servers.None? then None
      else if p.profileRef !in rb.profiles then Some(ProfileMutation(p.profileRef, None, None, servers.value))
      else
        var target := rb.profiles[p.profileRef];
        if !isUuid(target.profileId) then None
        else Some(ProfileMutation(p.profileRef, Some(target.profileId), Some(target.expectedVersion), servers.value))
  }

  function CommitBinding(rb: Rebindings): Binding -> Option<BindingMutation> {
    (b: Binding) =>
      if b.targetRef !in rb.targets then None
      else Some(BindingMutation(b.profileRef, b.targetRef, b.targetType, rb.targets[b.targetRef]))
  }

  function BuildCommit(bundle: Bundle, rb: Rebindings, isUuid: string -> bool): Option<Commit> {
    var profiles := Traverse(bundle.profiles, CommitProfile(rb, isUuid));
    var bindings := Traverse(bundle.bindings, CommitBinding(rb));
    if profiles.None? || bindings.None? then None else Some(Commit(profiles.value, bindings.value))
  }

  /** `build_bundle_import_commit`; `isUuid` is the parser of profile ids. */
  method BuildBundleImportCommit(bundle: Bundle, rb: Rebindings, isUuid: string -> bool) returns (r: Option<Commit>)
    ensures r == BuildCommit(bundle, rb, isUuid)
  {
    var profiles: seq<ProfileMutation> := [];
    for i := 0 to |bundle.profiles|
      invariant Traverse(bundle.profiles[..i], CommitProfile(rb, isUuid)) == Some(profiles)
    {
      var next := CommitProfile(rb, isUuid)(bundle.profiles[i]);
      if next.None? {
        return None;
      }
      assert bundle.profiles[..i + 1][..i] == bundle.profiles[..i];
      profiles := profiles + [next.value];
    }
    assert bundle.profiles[..|bundle.profiles|] == bundle.profiles;
    var bindings := Traverse(bundle.bindings, CommitBinding(rb));
    return if bindings.None? then None else Some(Commit(profiles, bindings.value));
  }

  // ---- When the commit succeeds -----------------------------------------------------------------------

  ghost predicate SecretsBound(secrets: seq<SecretRef>, rb: Rebindings) {
    forall i :: 0 <= i < |secrets| ==> secrets[i].reference in rb.secretRefs
  }

  /** Every placeholder of the value is bound. */
  ghost predicate ValueBound(value: string, rb: Rebindings) {
    forall k :: k in Placeholders(value) ==> k in rb.machineLocalValues
  }

  ghost predicate ValuesBound(values: seq<string>, rb: Rebindings) {
    forall i :: 0 <= i < |values| ==> ValueBound(values[i], rb)
  }

  ghost predicate ServerBound(s: Server, rb: Rebindings) {
    SecretsBound(s.secretRefs, rb) && ValuesBound(Values(s.definition), rb)
  }

  lemma ValueRebinds(value: string, rb: Rebindings)
    ensures RebindValue(rb)(value).Some? <==> ValueBound(value, rb)
  {
    ReplaceKeysSucceeds(value, Placeholders(value), rb.machineLocalValues);
  }

  lemma ArgsRebind(args: seq<string>, rb: Rebindings)
    ensures Traverse(args, RebindValue(rb)).Some? <==> ValuesBound(args, rb)
  {
    forall i | 0 <= i < |args| ensures RebindValue(rb)(args[i]).Some? <==> ValueBound(args[i], rb) {
      ValueRebinds(args[i], rb);
    }
  }

  lemma ValuesBoundConcat(xs: seq<string>, ys: seq<string>, rb: Rebindings)
    ensures ValuesBound(xs + ys, rb) <==> ValuesBound(xs, rb) && ValuesBound(ys, rb)
  {
    var all := xs + ys;
    if ValuesBound(all, rb) {
      forall i | 0 <= i < |xs| ensures ValueBound(xs[i], rb) { assert all[i] == xs[i]; }
      forall i | 0 <= i < |ys| ensures ValueBound(ys[i], rb) { assert all[|xs| + i] == ys[i]; }
    }
  }

  lemma OptionalRebinds(value: Option<string>, rb: Rebindings)
    ensures RebindOptional(value, rb).Some? <==> ValuesBound(Optional(value), rb)
  {
    if value.Some? {
      ValueRebinds(value.value, rb);
      assert Optional(value)[0] == value.value;
    }
  }

  lemma DefinitionRebinds(d: Option<Definition>, rb: Rebindings)
    ensures RebindDefinition(d, rb).Some? <==> ValuesBound(Values(d), rb)
  {
    if d.Some? {
      var c, a, e := Optional(d.value.command), d.value.args, Optional(d.value.endpoint);
      OptionalRebinds(d.value.command, rb);
      ArgsRebind(a, rb);
      OptionalRebinds(d.value.endpoint, rb);
      ValuesBoundConcat(c, a, rb);
      ValuesBoundConcat(c + a, e, rb);
    }
  }

  ghost predicate ServerCommits(s: Server, rb: Rebindings) {
    RuntimeKey(s.runtime) in rb.runtimes && ServerBound(s, rb)
  }

  lemma ServerRebinds(s: Server, rb: Rebindings)
    ensures RebindServer(rb)(s).Some? <==> ServerCommits(s, rb)
  {
    DefinitionRebinds(s.definition, rb);
    var secrets := Traverse(s.secretRefs, RebindSecret(rb));
    assert secrets.Some? <==> SecretsBound(s.secretRefs, rb) by {
      assert forall i :: 0 <= i < |s.secretRefs| ==>
        (RebindSecret(rb)(s.secretRefs[i]).Some? <==> s.secretRefs[i].reference in rb.secretRefs);
    }
  }

  ghost predicate TargetIsUuid(p: Profile, rb: Rebindings, isUuid: string -> bool) {
    p.profileRef in rb.profiles ==> isUuid(rb.profiles[p.profileRef].profileId)
  }

  ghost predicate ProfileCommits(p: Profile, rb: Rebindings, isUuid: string -> bool) {
    (forall i :: 0 <= i < |p.servers| ==> ServerCommits(p.servers[i], rb)) && TargetIsUuid(p, rb, isUuid)
  }

  lemma ProfileRebinds(p: Profile, rb: Rebindings, isUuid: string -> bool)
    ensures CommitProfile(rb, isUuid)(p).Some? <==> ProfileCommits(p, rb, isUuid)
  {
    forall i | 0 <= i < |p.servers| ensures RebindServer(rb)(p.servers[i]).Some? <==> ServerCommits(p.servers[i], rb) {
      ServerRebinds(p.servers[i], rb);
    }
  }

  /** The commit can be built exactly when everything it looks up is bound. */
  lemma CommitExact(bundle: Bundle, rb: Rebindings, isUuid: string -> bool)
    ensures BuildCommit(bundle, rb, isUuid).Some? <==>
      && (forall i :: 0 <= i < |bundle.profiles| ==> ProfileCommits(bundle.profiles[i], rb, isUuid))
      && (forall i :: 0 <= i < |bundle.bindings| ==> bundle.bindings[i].targetRef in rb.targets)
  {
    forall i | 0 <= i < |bundle.profiles|
      ensures CommitProfile(rb, isUuid)(bundle.profiles[i]).Some? <==> ProfileCommits(bundle.profiles[i], rb, isUuid)
    {
      ProfileRebinds(bundle.profiles[i], rb, isUuid);
    }
    assert forall i :: 0 <= i < |bundle.bindings| ==>
      (CommitBinding(rb)(bundle.bindings[i]).Some? <==> bundle.bindings[i].targetRef in rb.targets);
  }

  // ---- What a preview without blocking diagnostics means ----------------------------------------------

  ghost predicate NoneBlocking(ds: seq<Diagnostic>) {
    forall d :: d in ds ==> !Blocking(d)
  }

  lemma BlockingConcat(xs: seq<Diagnostic>, ys: seq<Diagnostic>)
    ensures NoneBlocking(xs + ys) <==> NoneBlocking(xs) && NoneBlocking(ys)
  {
    if NoneBlocking(xs + ys) {
      forall d | d in xs || d in ys ensures !Blocking(d) {
        assert d in xs + ys;
      }
    }
  }

  ghost predicate Silent<T>(x: T, report: T -> seq<Diagnostic>) {
    NoneBlocking(report(x))
  }

  /** Nothing blocks exactly when no element is reported as blocking. */
  lemma {:induction false} CollectSilent<T>(xs: seq<T>, report: T -> seq<Diagnostic>)
    ensures NoneBlocking(Collect(xs, report)) <==> forall i :: 0 <= i < |xs| ==> Silent(xs[i], report)
  {
    if xs != [] {
      var init, last := xs[..|xs| - 1], xs[|xs| - 1];
      CollectSilent(init, report);
      BlockingConcat(Collect(init, report), report(last));
      assert forall i :: 0 <= i < |init| ==> init[i] == xs[i];
    }
  }

  lemma {:induction false} CountZero(ds: seq<Diagnostic>)
    ensures BlockingCount(ds) == 0 <==> NoneBlocking(ds)
  {
    if ds != [] {
      CountZero(ds[..|ds| - 1]);
      assert ds == ds[..|ds| - 1] + [ds[|ds| - 1]];
    }
  }

  lemma {:induction false} EndsWithContains(u: string, part: string)
    requires part != []
    ensures Contains(u + part, part)
  {
    if u == [] {
      assert u + part == part;
      assert part[..|part|] == part;
    } else {
      EndsWithContains(u[1..], part);
      assert (u + part)[1..] == u[1..] + part;
    }
  }

  /** The codes reported for something unbound count as blocking by their spelling. */
  lemma CodesBlock(d: Diagnostic)
    requires d.code in {"secret_ref_rebind_missing", "machine_local_rebind_missing", "target_rebind_missing",
                        "runtime_rebind_missing", "runtime_missing", "capability_mismatch"}
    ensures Blocking(d)
  {
    assert "secret_ref_rebind_missing" == "secret_ref_rebind" + "_missing";
    assert "machine_local_rebind_missing" == "machine_local_rebind" + "_missing";
    assert "target_rebind_missing" == "target_rebind" + "_missing";
    assert "runtime_rebind_missing" == "runtime_rebind" + "_missing";
    assert "runtime_missing" == "runtime" + "_missing";
    assert "capability_mismatch" == "capability" + "_mismatch";
    EndsWithContains("secret_ref_rebind", "_missing");
    EndsWithContains("machine_local_rebind", "_missing");
    EndsWithContains("target_rebind", "_missing");
    EndsWithContains("runtime_rebind", "_missing");
    EndsWithContains("runtime", "_missing");
    EndsWithContains("capability", "_mismatch");
  }

  /** A report of at most one diagnostic, which blocks by its class or its code. */
  lemma OneReport(ds: seq<Diagnostic>)
    requires |ds| == 1
    requires ds[0].classification == Blocked
      || ds[0].code in {"secret_ref_rebind_missing", "machine_local_rebind_missing", "target_rebind_missing",
                        "runtime_rebind_missing", "runtime_missing", "capability_mismatch"}
    ensures !NoneBlocking(ds)
  {
    assert ds[0] in ds;
    if ds[0].classification != Blocked {
      CodesBlock(ds[0]);
    }
  }

  lemma ValueSilent(p: Profile, s: Server, rb: Rebindings, value: string)
    ensures Silent(value, ValueReport(p, s, rb)) <==> ValueBound(value, rb)
  {
    var keys, report := Placeholders(value), KeyReport(p, s, rb);
    CollectSilent(keys, report);
    forall i | 0 <= i < |keys| ensures Silent(keys[i], report) <==> keys[i] in rb.machineLocalValues {
      if keys[i] !in rb.machineLocalValues {
        OneReport(report(keys[i]));
      }
    }
    assert NoneBlocking(Collect(keys, report)) <==> forall i :: 0 <= i < |keys| ==> keys[i] in rb.machineLocalValues;
  }

  lemma ServerValuesSilent(p: Profile, s: Server, rb: Rebindings)
    ensures NoneBlocking(Collect(s.secretRefs, SecretReport(p, s, rb))) <==> SecretsBound(s.secretRefs, rb)
    ensures NoneBlocking(Collect(Values(s.definition), ValueReport(p, s, rb)))
       <==> ValuesBound(Values(s.definition), rb)
  {
    var secrets, values := s.secretRefs, Values(s.definition);
    CollectSilent(secrets, SecretReport(p, s, rb));
    forall i | 0 <= i < |secrets|
      ensures Silent(secrets[i], SecretReport(p, s, rb)) <==> secrets[i].reference in rb.secretRefs
    {
      if secrets[i].reference !in rb.secretRefs {
        OneReport(SecretReport(p, s, rb)(secrets[i]));
      }
    }
    CollectSilent(values, ValueReport(p, s, rb));
    forall i | 0 <= i < |values| ensures Silent(values[i], ValueReport(p, s, rb)) <==> ValueBound(values[i], rb) {
      ValueSilent(p, s, rb, values[i]);
    }
  }

  /** The runtime a server is bound to, under the prefixed key or else the bare name, is installed. */
  predicate RuntimeReady(s: Server, rb: Rebindings, dest: Destination) {
    if RuntimeKey(s.runtime) in rb.runtimes then rb.runtimes[RuntimeKey(s.runtime)] in dest.runtimes
    else s.runtime in rb.runtimes && rb.runtimes[s.runtime] in dest.runtimes
  }

  ghost predicate ServerReady(s: Server, rb: Rebindings, dest: Destination) {
    RuntimeReady(s, rb, dest) && ServerBound(s, rb)
  }

  lemma ServerSilent(p: Profile, s: Server, rb: Rebindings, dest: Destination)
    ensures Silent(s, ServerReport(p, rb, dest)) <==> ServerReady(s, rb, dest)
  {
    var runtime := RuntimeReport(p, s, rb, dest);
    var secrets := Collect(s.secretRefs, SecretReport(p, s, rb));
    BlockingConcat(runtime + secrets, Collect(Values(s.definition), ValueReport(p, s, rb)));
    BlockingConcat(runtime, secrets);
    if runtime != [] {
      OneReport(runtime);
    }
    ServerValuesSilent(p, s, rb);
  }

  /** A profile that is to be updated exists with the expected version. */
  predicate TargetReady(p: Profile, rb: Rebindings, dest: Destination) {
    p.profileRef in rb.profiles ==>
      var target := rb.profiles[p.profileRef];
      target.profileId in dest.profileVersions && dest.profileVersions[target.profileId] == target.expectedVersion
  }

  ghost predicate ProfileReady(p: Profile, rb: Rebindings, dest: Destination) {
    TargetReady(p, rb, dest) && forall i :: 0 <= i < |p.servers| ==> ServerReady(p.servers[i], rb, dest)
  }

  lemma ProfileSilent(p: Profile, rb: Rebindings, dest: Destination)
    ensures Silent(p, ProfileReport(rb, dest)) <==> ProfileReady(p, rb, dest)
  {
    var target, report := ProfileTargetReport(p, rb, dest), ServerReport(p, rb, dest);
    BlockingConcat(target, Collect(p.servers, report));
    if target != [] {
      OneReport(target);
    }
    CollectSilent(p.servers, report);
    forall i | 0 <= i < |p.servers| ensures Silent(p.servers[i], report) <==> ServerReady(p.servers[i], rb, dest) {
      ServerSilent(p, p.servers[i], rb, dest);
    }
  }

  predicate BindingReady(b: Binding, rb: Rebindings, dest: Destination) {
    b.targetRef in rb.targets && (b.targetType, rb.targets[b.targetRef]) in dest.targets
  }

  lemma BindingSilent(b: Binding, rb: Rebindings, dest: Destination)
    ensures Silent(b, BindingReport(rb, dest)) <==> BindingReady(b, rb, dest)
  {
    if !BindingReady(b, rb, dest) {
      OneReport(BindingReport(rb, dest)(b));
    }
  }

  /** The runtime is there, and no operation ranks below the expected support. */
  ghost predicate ExpectationReady(e: Expectation, rb: Rebindings, dest: Destination) {
    var runtime := ExpectedRuntime(e, rb);
    && runtime in dest.runtimes
    && forall i :: 0 <= i < |e.operations| ==>
         Rank(ActualSupport(dest.runtimes[runtime], e.operations[i].0)) >= Rank(e.operations[i].1)
  }

  lemma ExpectationSilent(e: Expectation, rb: Rebindings, dest: Destination)
    ensures Silent(e, ExpectationReport(rb, dest)) <==> ExpectationReady(e, rb, dest)
  {
    var runtime := ExpectedRuntime(e, rb);
    if runtime in dest.runtimes {
      var actual := dest.runtimes[runtime];
      var report := OperationReport(e, runtime, actual);
      CollectSilent(e.operations, report);
      forall i | 0 <= i < |e.operations|
        ensures Silent(e.operations[i], report)
           <==> Rank(ActualSupport(actual, e.operations[i].0)) >= Rank(e.operations[i].1)
      {
        if Rank(ActualSupport(actual, e.operations[i].0)) < Rank(e.operations[i].1) {
          OneReport(report(e.operations[i]));
        }
      }
    } else {
      OneReport(ExpectationReport(rb, dest)(e));
    }
  }

  /** What the export recorded as blocked stays blocked; a machine-local note blocks by its code. */
  predicate CarriedReady(d: Diagnostic) {
    d.classification in {Blocked, MachineLocal} ==> !Blocking(d)
  }

  lemma CarriedSilent(d: Diagnostic)
    ensures Silent(d, Carried()) <==> CarriedReady(d)
  {
    assert Carried()(d) != [] ==> d in Carried()(d);
  }

  /** Everything the preview asks of the rebindings and the destination. */
  ghost predicate Ready(bundle: Bundle, rb: Rebindings, dest: Destination) {
    && (forall i :: 0 <= i < |bundle.portability| ==> CarriedReady(bundle.portability[i]))
    && (forall i :: 0 <= i < |bundle.expectations| ==> ExpectationReady(bundle.expectations[i], rb, dest))
    && (forall i :: 0 <= i < |bundle.profiles| ==> ProfileReady(bundle.profiles[i], rb, dest))
    && (forall i :: 0 <= i < |bundle.bindings| ==> BindingReady(bundle.bindings[i], rb, dest))
  }

  lemma PortabilitySilent(ds: seq<Diagnostic>)
    ensures NoneBlocking(Collect(ds, Carried())) <==> forall i :: 0 <= i < |ds| ==> CarriedReady(ds[i])
  {
    CollectSilent(ds, Carried());
    forall i | 0 <= i < |ds| ensures Silent(ds[i], Carried()) <==> CarriedReady(ds[i]) {
      CarriedSilent(ds[i]);
    }
  }

  lemma ExpectationsSilent(es: seq<Expectation>, rb: Rebindings, dest: Destination)
    ensures NoneBlocking(Collect(es, ExpectationReport(rb, dest)))
       <==> forall i :: 0 <= i < |es| ==> ExpectationReady(es[i], rb, dest)
  {
    CollectSilent(es, ExpectationReport(rb, dest));
    forall i | 0 <= i < |es| ensures Silent(es[i], ExpectationReport(rb, dest)) <==> ExpectationReady(es[i], rb, dest) {
      ExpectationSilent(es[i], rb, dest);
    }
  }

  lemma ProfilesSilent(ps: seq<Profile>, rb: Rebindings, dest: Destination)
    ensures NoneBlocking(Collect(ps, ProfileReport(rb, dest)))
       <==> forall i :: 0 <= i < |ps| ==> ProfileReady(ps[i], rb, dest)
  {
    CollectSilent(ps, ProfileReport(rb, dest));
    forall i | 0 <= i < |ps| ensures Silent(ps[i], ProfileReport(rb, dest)) <==> ProfileReady(ps[i], rb, dest) {
      ProfileSilent(ps[i], rb, dest);
    }
  }

  lemma BindingsSilent(bs: seq<Binding>, rb: Rebindings, dest: Destination)
    ensures NoneBlocking(Collect(bs, BindingReport(rb, dest)))
       <==> forall i :: 0 <= i < |bs| ==> BindingReady(bs[i], rb, dest)
  {
    CollectSilent(bs, BindingReport(rb, dest));
    forall i | 0 <= i < |bs| ensures Silent(bs[i], BindingReport(rb, dest)) <==> BindingReady(bs[i], rb, dest) {
      BindingSilent(bs[i], rb, dest);
    }
  }

  /** The preview may be committed exactly when the bundle is ready; sorting and dropping duplicates
      lose nothing. */
  lemma PreviewExact(bundle: Bundle, rb: Rebindings, dest: Destination)
    ensures PreviewCount(bundle, rb, dest) == 0 <==> Ready(bundle, rb, dest)
  {
    var all := AllDiagnostics(bundle, rb, dest);
    var sorted := Sort(all, DiagnosticLe);
    SameElements(sorted, all);
    CountZero(Dedup(sorted));
    var carried := Collect(bundle.portability, Carried());
    var expected := Collect(bundle.expectations, ExpectationReport(rb, dest));
    var profiles := Collect(bundle.profiles, ProfileReport(rb, dest));
    var bindings := Collect(bundle.bindings, BindingReport(rb, dest));
    BlockingConcat(carried + expected + profiles, bindings);
    BlockingConcat(carried + expected, profiles);
    BlockingConcat(carried, expected);
    PortabilitySilent(bundle.portability);
    ExpectationsSilent(bundle.expectations, rb, dest);
    ProfilesSilent(bundle.profiles, rb, dest);
    BindingsSilent(bundle.bindings, rb, dest);
  }

  /** A preview that may be committed predicts the commit except in two respects, and exactly these:
      the commit wants every runtime under its prefixed key, and profile ids that parse as UUIDs. */
  lemma PreviewPredictsCommit(bundle: Bundle, rb: Rebindings, dest: Destination, isUuid: string -> bool)
    requires PreviewCount(bundle, rb, dest) == 0
    ensures BuildCommit(bundle, rb, isUuid).Some? <==>
      forall i :: 0 <= i < |bundle.profiles| ==>
        RuntimesPrefixed(bundle.profiles[i], rb) && TargetIsUuid(bundle.profiles[i], rb, isUuid)
  {
    PreviewExact(bundle, rb, dest);
    CommitExact(bundle, rb, isUuid);
    forall i | 0 <= i < |bundle.profiles|
      ensures ProfileCommits(bundle.profiles[i], rb, isUuid)
         <==> RuntimesPrefixed(bundle.profiles[i], rb) && TargetIsUuid(bundle.profiles[i], rb, isUuid)
    {
      var p := bundle.profiles[i];
      assert ProfileReady(p, rb, dest);
      forall j | 0 <= j < |p.servers|
        ensures ServerCommits(p.servers[j], rb) <==> RuntimeKey(p.servers[j].runtime) in rb.runtimes
      {
        assert ServerReady(p.servers[j], rb, dest);
      }
    }
    forall i | 0 <= i < |bundle.bindings| ensures bundle.bindings[i].targetRef in rb.targets {
      assert BindingReady(bundle.bindings[i], rb, dest);
    }
  }

  ghost predicate RuntimesPrefixed(p: Profile, rb: Rebindings) {
    forall i :: 0 <= i < |p.servers| ==> RuntimeKey(p.servers[i].runtime) in rb.runtimes
  }

  /** A runtime bound under its bare name, and installed, is all the preview asks of a bare server. */
  lemma BareServerReady(s: Server, rb: Rebindings, dest: Destination)
    requires s.secretRefs == [] && s.definition.None?
    requires RuntimeKey(s.runtime) !in rb.runtimes
    requires s.runtime in rb.runtimes && rb.runtimes[s.runtime] in dest.runtimes
    ensures ServerReady(s, rb, dest) && !ServerCommits(s, rb)
  {
  }

  /** Such a server passes the preview and fails the commit. */
  lemma BareRuntimeKeyFails(runtime: string, installed: string, isUuid: string -> bool)
    ensures
      var server := Server("server", runtime, [], None);
      var bundle := Bundle([Profile("profile", [server])], [], [], []);
      var rb := Rebindings(map[], map[runtime := installed], map[], map[], map[]);
      var dest := Destination(map[], map[installed := map[]], {});
      PreviewCount(bundle, rb, dest) == 0 && BuildCommit(bundle, rb, isUuid).None?
  {
    var server := Server("server", runtime, [], None);
    var p := Profile("profile", [server]);
    var bundle := Bundle([p], [], [], []);
    var rb := Rebindings(map[], map[runtime := installed], map[], map[], map[]);
    var dest := Destination(map[], map[installed := map[]], {});
    assert |RuntimeKey(runtime)| > |runtime|;
    BareServerReady(server, rb, dest);
    PreviewExact(bundle, rb, dest);
    CommitExact(bundle, rb, isUuid);
    assert p.servers[0] == server && !ProfileCommits(bundle.profiles[0], rb, isUuid);
  }

  /** The capability comparison follows the derived order, in which `Supported` is least: a destination
      that supports every operation no better than expected is never reported. */
  lemma {:induction false} WeakerDestinationUnreported(e: Expectation, runtime: string, actual: map<string, Support>,
                                                       operations: seq<(string, Support)>)
    requires forall i :: 0 <= i < |operations| ==>
      Rank(operations[i].1) <= Rank(ActualSupport(actual, operations[i].0))
    ensures Collect(operations, OperationReport(e, runtime, actual)) == []
  {
    if operations != [] {
      WeakerDestinationUnreported(e, runtime, actual, operations[..|operations| - 1]);
    }
  }

  /** ... and a better one is reported as weaker. */
  lemma BetterDestinationReported(e: Expectation, runtime: string, actual: map<string, Support>, operation: string)
    requires ActualSupport(actual, operation) == Supported
    ensures OperationReport(e, runtime, actual)((operation, Unsupported)) != []
  {
  }

  // ---- What a commit holds ------------------------------------------------------------------------------

  /** The server as the destination will run it. */
  ghost predicate Rebound(s: Server, r: Server, rb: Rebindings) {
    && r.serverId == s.serverId
    && RuntimeKey(s.runtime) in rb.runtimes && r.runtime == rb.runtimes[RuntimeKey(s.runtime)]
    && |r.secretRefs| == |s.secretRefs|
    && (forall i :: 0 <= i < |s.secretRefs| ==> RebindSecret(rb)(s.secretRefs[i]) == Some(r.secretRefs[i]))
    && Filled(Values(s.definition), Values(r.definition), rb)
  }

  /** Each value has its placeholders replaced, in its place. */
  ghost predicate Filled(xs: seq<string>, ys: seq<string>, rb: Rebindings) {
    |xs| == |ys| && forall i :: 0 <= i < |xs| ==> RebindValue(rb)(xs[i]) == Some(ys[i])
  }

  lemma FilledConcat(xs: seq<string>, xs': seq<string>, ys: seq<string>, ys': seq<string>, rb: Rebindings)
    requires Filled(xs, xs', rb) && Filled(ys, ys', rb)
    ensures Filled(xs + ys, xs' + ys', rb)
  {
  }

  lemma OptionalFilled(value: Option<string>, rb: Rebindings)
    requires RebindOptional(value, rb).Some?
    ensures Filled(Optional(value), Optional(RebindOptional(value, rb).value), rb)
  {
  }

  lemma DefinitionFilled(d: Definition, rb: Rebindings)
    requires RebindDefinition(Some(d), rb).Some?
    ensures Filled(Values(Some(d)), Values(RebindDefinition(Some(d), rb).value), rb)
  {
    var e := RebindDefinition(Some(d), rb).value.value;
    OptionalFilled(d.command, rb);
    OptionalFilled(d.endpoint, rb);
    assert Filled(d.args, e.args, rb);
    FilledConcat(Optional(d.command), Optional(e.command), d.args, e.args, rb);
    FilledConcat(Optional(d.command) + d.args, Optional(e.command) + e.args,
                 Optional(d.endpoint), Optional(e.endpoint), rb);
  }

  lemma ServerRebound(s: Server, rb: Rebindings)
    requires RebindServer(rb)(s).Some?
    ensures Rebound(s, RebindServer(rb)(s).value, rb)
  {
    if s.definition.Some? {
      DefinitionFilled(s.definition.value, rb);
    }
  }

  /** The value is tame text and placeholders. */
  ghost predicate Spells(value: string) {
    exists tokens :: Rebind.WellFormed(tokens) && Render(tokens) == value
  }

  /** The keys of the value, as far as they are bound, are bound to tame text. */
  ghost predicate PlainlyBound(value: string, rb: Rebindings) {
    forall key :: key in Placeholders(value) && key in rb.machineLocalValues ==> Tame(rb.machineLocalValues[key])
  }

  /** A committed value has no placeholder left when the bindings of its own keys are tame. */
  lemma CommitLeavesNoPlaceholder(bundle: Bundle, rb: Rebindings, isUuid: string -> bool, i: nat, j: nat, k: nat)
    requires BuildCommit(bundle, rb, isUuid).Some?
    requires i < |bundle.profiles| && j < |bundle.profiles[i].servers|
    requires k < |Values(bundle.profiles[i].servers[j].definition)|
    requires Spells(Values(bundle.profiles[i].servers[j].definition)[k])
    requires PlainlyBound(Values(bundle.profiles[i].servers[j].definition)[k], rb)
    ensures
      var profiles := BuildCommit(bundle, rb, isUuid).value.profiles;
      && i < |profiles| && j < |profiles[i].servers|
      && Rebound(bundle.profiles[i].servers[j], profiles[i].servers[j], rb)
      && k < |Values(profiles[i].servers[j].definition)|
      && Placeholders(Values(profiles[i].servers[j].definition)[k]) == []
  {
    var profile := bundle.profiles[i];
    var committed := BuildCommit(bundle, rb, isUuid).value.profiles[i];
    assert CommitProfile(rb, isUuid)(profile) == Some(committed);
    assert Traverse(profile.servers, RebindServer(rb)) == Some(committed.servers);
    var s, r := profile.servers[j], committed.servers[j];
    assert RebindServer(rb)(s) == Some(r);
    ServerRebound(s, rb);
    ValueFilled(Values(s.definition)[k], rb);
  }

  lemma ValueFilled(value: string, rb: Rebindings)
    requires Spells(value) && RebindValue(rb)(value).Some?
    requires PlainlyBound(value, rb)
    ensures Placeholders(RebindValue(rb)(value).value) == []
  {
    var tokens :| Rebind.WellFormed(tokens) && Render(tokens) == value;
    ScanFindsKeys(tokens);
    ValueRebinds(value, rb);
    assert forall key :: key in KeySet(Keys(tokens)) ==> key in Placeholders(value);
    SequentialIsSimultaneous(tokens, rb.machineLocalValues);
  }
}
