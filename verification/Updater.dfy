/** The update state machine: signed manifests are checked, packages downloaded, errors recorded. */
module Updater {
  import opened Wrappers
  import opened Texts
  import opened Semver
  import SemverOrder
  import Json = CanonicalJson

  type Bytes = seq<int>

  datatype Phase = Idle | Checking | Available | Downloaded | Applying | Committed | Failed

  datatype UpdateError =
    | NoError
    | TrustRootIncomplete | FetchFailed | ManifestJsonInvalid | ManifestShapeInvalid
    | SigningKeyMismatch | SignatureInvalid | ManifestSchemaInvalid | MetadataRollbackOrReplay
    | ManifestExpired | ReleaseRollbackOrNotNewer | TargetOriginNotTrusted | TargetHashInvalid
    | TargetSizeInvalid | NotAvailable | DownloadFailed | DownloadSizeMismatch | DownloadHashMismatch

  /** The signed fields after coercion; None where a number or date does not parse. */
  datatype Manifest = Manifest(
    schemaIsCurrent: bool, metadataVersion: Option<int>, expires: Option<int>,
    release: Text, url: Text, sha256: Text, size: Option<int>)

  /** What fetching the manifest address gave. */
  datatype Fetched =
    | Unreachable
    | NotJson
    | NotEnvelope
    | Envelope(signed: Json.Json, keyId: Text, signature: Text)

  /** `origins` is None when a listed origin is not an address. */
  datatype Trust = Trust(
    enabled: bool, manifestUrl: Text, publicKey: Text, keyId: Text, publisher: Text,
    origins: Option<set<Text>>)

  /** Platform functions. `origin` gives the origin of an https address without credentials. */
  datatype Platform = Platform(
    lower: Text -> Text,
    read: Json.Json -> Manifest,
    verifies: (Text, Text, Text) -> bool,
    origin: Text -> Option<Text>,
    hash: Bytes -> Text)

  datatype Config = Config(platform: Platform, trust: Trust, currentVersion: Text)

  datatype Package = Package(release: Text, bytes: Bytes, sha256: Text)

  datatype State = State(
    phase: Phase, available: Option<Manifest>, highestMetadata: int, highestRelease: Text,
    package: Option<Package>, error: UpdateError)

  const MAX_PACKAGE_BYTES := 4 * 1024 * 1024 * 1024
  const MAX_SAFE_INTEGER := 0x20_0000_0000_0000 - 1

  predicate SafeInteger(n: Option<int>) { n.Some? && -MAX_SAFE_INTEGER <= n.value <= MAX_SAFE_INTEGER }

  predicate HexDigit(c: int) { 48 <= c <= 57 || 65 <= c <= 70 || 97 <= c <= 102 }

  predicate HexDigest(t: Text) { |t| == 64 && forall k | 0 <= k < 64 :: HexDigit(t[k]) }

  function Compare(c: Config, a: Text, b: Text): int { CompareSemver(c.platform.lower, a, b) }

  function ReleaseFloor(s: State): Text { if s.highestRelease == [] then [48] else s.highestRelease }

  predicate TrustsUrl(c: Config, url: Text) {
    c.trust.origins.Some? && c.platform.origin(url).Some? && c.platform.origin(url).value in c.trust.origins.value
  }

  predicate TrustComplete(t: Trust) {
    t.manifestUrl != [] && t.publicKey != [] && t.keyId != [] && t.publisher != []
    && t.origins.Some? && t.origins.value != {}
  }

  /** The checks in the order they are made; the first that fails names the error. */
  function Verify(c: Config, fetched: Fetched, s: State, now: int): Result<Manifest, UpdateError> {
    if fetched.Unreachable? then Failure(FetchFailed)
    else if fetched.NotJson? then Failure(ManifestJsonInvalid)
    else if fetched.NotEnvelope? then Failure(ManifestShapeInvalid)
    else if fetched.keyId != c.trust.keyId then Failure(SigningKeyMismatch)
    else if !c.platform.verifies(Json.Print(fetched.signed), c.trust.publicKey, fetched.signature) then
      Failure(SignatureInvalid)
    else
      var m := c.platform.read(fetched.signed);
      if !m.schemaIsCurrent then Failure(ManifestSchemaInvalid)
      else if !SafeInteger(m.metadataVersion) || m.metadataVersion.value < s.highestMetadata then
        Failure(MetadataRollbackOrReplay)
      else if m.expires.None? || m.expires.value <= now then Failure(ManifestExpired)
      else if Compare(c, m.release, c.currentVersion) <= 0 || Compare(c, m.release, ReleaseFloor(s)) < 0 then
        Failure(ReleaseRollbackOrNotNewer)
      else if !TrustsUrl(c, m.url) then Failure(TargetOriginNotTrusted)
      else if !HexDigest(m.sha256) then Failure(TargetHashInvalid)
      else if !SafeInteger(m.size) || m.size.value <= 0 || m.size.value > MAX_PACKAGE_BYTES then
        Failure(TargetSizeInvalid)
      else Success(m)
  }

  // ---------- What a request does ----------

  datatype Request =
    | CheckNow(fetched: Fetched, now: int)
    | DownloadNow(received: Option<Bytes>)

  /** The manifest a check accepts in state s, if it accepts one. */
  function AcceptedBy(c: Config, s: State, r: Request): Option<Manifest> {
    if r.CheckNow? && c.trust.enabled && TrustComplete(c.trust) && Verify(c, r.fetched, s, r.now).Success?
    then Some(Verify(c, r.fetched, s, r.now).value)
    else None
  }

  predicate SameRelease(c: Config, s: State, m: Manifest) {
    s.phase == Downloaded && s.available.Some? && Compare(c, m.release, s.available.value.release) == 0
  }

  function Recorded(s: State, error: UpdateError): State {
    s.(phase := if s.phase in {Downloaded, Applying, Committed} then s.phase else Failed, error := error)
  }

  function Announced(s: State): State {
    s.(phase := if s.phase == Downloaded then Downloaded else Checking, error := NoError)
  }

  /** A package is kept only when its length and hash are the target's. */
  function PackageOf(c: Config, m: Manifest, received: Option<Bytes>): Result<Package, UpdateError> {
    if received.None? || !TrustsUrl(c, m.url) then Failure(DownloadFailed)
    else if m.size != Some(|received.value|) then Failure(DownloadSizeMismatch)
    else
      var digest := c.platform.hash(received.value);
      if c.platform.lower(digest) != c.platform.lower(m.sha256) then Failure(DownloadHashMismatch)
      else Success(Package(m.release, received.value, digest))
  }

  /** One request served to its end, a thrown error recorded. */
  function Step(c: Config, s: State, r: Request): State {
    match r
    case CheckNow(fetched, now) =>
      if !c.trust.enabled then s
      else if !TrustComplete(c.trust) then Recorded(s, TrustRootIncomplete)
      else
        var verdict := Verify(c, fetched, s, now);
        if verdict.Failure? then Recorded(Announced(s), verdict.error)
        else
          var m := verdict.value;
          s.(phase := if SameRelease(c, s, m) then Downloaded else Available,
             available := Some(m), highestMetadata := m.metadataVersion.value, error := NoError)
    case DownloadNow(received) =>
      if s.available.None? || s.phase != Available then Recorded(s, NotAvailable)
      else
        var package := PackageOf(c, s.available.value, received);
        if package.Failure? then Recorded(s, package.error)
        else s.(phase := Downloaded, package := Some(package.value), error := NoError)
  }

  function Run(c: Config, s: State, rs: seq<Request>): State
    decreases rs
  {
    if rs == [] then s else Run(c, Step(c, s, rs[0]), rs[1..])
  }

  /** The manifests accepted along a run, in order. */
  function AcceptedAlong(c: Config, s: State, rs: seq<Request>): seq<Manifest>
    decreases rs
  {
    if rs == [] then []
    else
      var first := AcceptedBy(c, s, rs[0]);
      (if first.Some? then [first.value] else []) + AcceptedAlong(c, Step(c, s, rs[0]), rs[1..])
  }

  // ---------- The updater object ----------

  class SecureUpdater {
    const config: Config
    var state: State

    constructor (config: Config, loaded: State)
      ensures this.config == config && state == loaded
    {
      this.config := config;
      state := loaded;
    }

    method RecordError(error: UpdateError)
      modifies this
      ensures state == Recorded(old(state), error)
    {
      var ready := state.phase == Downloaded || state.phase == Applying || state.phase == Committed;
      state := state.(phase := if ready then state.phase else Failed, error := error);
    }

    /** None: not configured. */
    method Check(fetched: Fetched, now: int) returns (r: Option<Result<Manifest, UpdateError>>)
      modifies this
      ensures r.None? <==> !config.trust.enabled
      ensures r.Some? && r.value.Success? ==>
              AcceptedBy(config, old(state), CheckNow(fetched, now)) == Some(r.value.value)
      ensures r.None? || r.value.Success? ==> state == Step(config, old(state), CheckNow(fetched, now))
      ensures r.Some? && r.value.Failure? ==>
        Recorded(state, r.value.error) == Step(config, old(state), CheckNow(fetched, now))
    {
      if !config.trust.enabled { return None; }
      if !TrustComplete(config.trust) { return Some(Failure(TrustRootIncomplete)); }
      var previous := if state.phase == Downloaded then state.available else None;
      state := state.(phase := if state.phase == Downloaded then Downloaded else Checking, error := NoError);
      VerifyLooksAt(config, fetched, old(state), state, now);
      var verdict := Verify(config, fetched, state, now);
      if verdict.Failure? { return Some(verdict); }
      var signed := verdict.value;
      var same := previous.Some? && Compare(config, signed.release, previous.value.release) == 0;
      state := state.(
        phase := if same then Downloaded else Available,
        available := Some(signed),
        highestMetadata := signed.metadataVersion.value,
        error := NoError);
      return Some(verdict);
    }

    method Download(received: Option<Bytes>) returns (r: Result<Package, UpdateError>)
      modifies this
      ensures r.Success? ==> state == Step(config, old(state), DownloadNow(received)) && state.package == Some(r.value)
      ensures r.Failure? ==>
              state == old(state) && Recorded(state, r.error) == Step(config, old(state), DownloadNow(received))
    {
      if state.available.None? || state.phase != Available { return Failure(NotAvailable); }
      r := PackageOf(config, state.available.value, received);
      if r.Success? { state := state.(phase := Downloaded, package := Some(r.value), error := NoError); }
    }

    /** A request from the window: whatever is thrown is recorded. */
    method Serve(request: Request)
      modifies this
      ensures state == Step(config, old(state), request)
    {
      match request {
        case CheckNow(fetched, now) =>
          var r := Check(fetched, now);
          if r.Some? && r.value.Failure? { RecordError(r.value.error); }
        case DownloadNow(received) =>
          var r := Download(received);
          if r.Failure? { RecordError(r.error); }
      }
    }

    method ServeAll(requests: seq<Request>)
      modifies this
      ensures state == Run(config, old(state), requests)
    {
      for k := 0 to |requests|
        invariant Run(config, state, requests[k..]) == Run(config, old(state), requests)
      {
        Serve(requests[k]);
        assert requests[k..][1..] == requests[k + 1..];
      }
    }
  }

  // ---------- Verification ----------

  /** Verification looks at the two high-water marks only. */
  lemma VerifyLooksAt(c: Config, fetched: Fetched, s: State, t: State, now: int)
    requires s.highestMetadata == t.highestMetadata && s.highestRelease == t.highestRelease
    ensures Verify(c, fetched, s, now) == Verify(c, fetched, t, now)
  {
  }

  /** What an accepted manifest satisfies, whatever was fetched. */
  ghost predicate Acceptable(c: Config, m: Manifest, s: State, now: int) {
    && m.metadataVersion.Some? && s.highestMetadata <= m.metadataVersion.value
    && m.expires.Some? && now < m.expires.value
    && Compare(c, m.release, c.currentVersion) > 0
    && Compare(c, m.release, ReleaseFloor(s)) >= 0
    && TrustsUrl(c, m.url) && HexDigest(m.sha256)
    && m.size.Some? && 0 < m.size.value <= MAX_PACKAGE_BYTES
  }

  /** No request rewrites the release floor. */
  lemma {:induction false} FloorStays(c: Config, s: State, rs: seq<Request>)
    ensures Run(c, s, rs).highestRelease == s.highestRelease
    decreases rs
  {
    if rs != [] {
      StepMetadata(c, s, rs[0]);
      FloorStays(c, Step(c, s, rs[0]), rs[1..]);
    }
  }

  /** From `from` to `to` through the versions of ms, none below the one before. */
  ghost predicate VersionsRise(from: int, ms: seq<Manifest>, to: int)
    decreases ms
  {
    if ms == [] then from == to
    else ms[0].metadataVersion.Some? && from <= ms[0].metadataVersion.value
         && VersionsRise(ms[0].metadataVersion.value, ms[1..], to)
  }

  lemma StepMetadata(c: Config, s: State, r: Request)
    ensures Step(c, s, r).highestRelease == s.highestRelease
    ensures AcceptedBy(c, s, r).None? ==> Step(c, s, r).highestMetadata == s.highestMetadata
    ensures AcceptedBy(c, s, r).Some? ==>
      var m := AcceptedBy(c, s, r).value;
      m.metadataVersion.Some? && s.highestMetadata <= m.metadataVersion.value == Step(c, s, r).highestMetadata
  {
  }

  /** The metadata version never falls: it climbs through exactly the accepted manifests. */
  lemma {:induction false} MetadataTheorem(c: Config, s: State, rs: seq<Request>)
    ensures VersionsRise(s.highestMetadata, AcceptedAlong(c, s, rs), Run(c, s, rs).highestMetadata)
    ensures s.highestMetadata <= Run(c, s, rs).highestMetadata
    decreases rs
  {
    if rs != [] {
      var next := Step(c, s, rs[0]);
      StepMetadata(c, s, rs[0]);
      MetadataTheorem(c, next, rs[1..]);
      var first, rest := AcceptedBy(c, s, rs[0]), AcceptedAlong(c, next, rs[1..]);
      if first.Some? {
        assert ([first.value] + rest)[1..] == rest;
      } else {
        assert [] + rest == rest;
      }
    }
  }

  /** The checks that depend on neither time nor state. */
  predicate Genuine(c: Config, fetched: Fetched) {
    && fetched.Envelope? && fetched.keyId == c.trust.keyId
    && c.platform.verifies(Json.Print(fetched.signed), c.trust.publicKey, fetched.signature)
    && var m := c.platform.read(fetched.signed);
       && m.schemaIsCurrent && SafeInteger(m.metadataVersion) && m.expires.Some?
       && Compare(c, m.release, c.currentVersion) > 0
       && TrustsUrl(c, m.url) && HexDigest(m.sha256)
       && SafeInteger(m.size) && 0 < m.size.value <= MAX_PACKAGE_BYTES
  }

  /** A manifest is accepted exactly when it is genuine, not older than what was accepted
      before, not expired and not below the release floor. */
  lemma VerifyTheorem(c: Config, fetched: Fetched, s: State, now: int)
    ensures Verify(c, fetched, s, now).Success? <==>
      Genuine(c, fetched) && Acceptable(c, c.platform.read(fetched.signed), s, now)
    ensures Verify(c, fetched, s, now).Success? ==> Verify(c, fetched, s, now).value == c.platform.read(fetched.signed)
  {
  }

  lemma VerifyAgain(c: Config, fetched: Fetched, s: State, now: int, t: State, later: int)
    requires Verify(c, fetched, s, now).Success? && t.highestRelease == s.highestRelease
    ensures var m := Verify(c, fetched, s, now).value;
      && Acceptable(c, m, s, now)
      && (Verify(c, fetched, t, later).Success? <==>
            t.highestMetadata <= m.metadataVersion.value && later < m.expires.value)
      && (Verify(c, fetched, t, later).Success? ==> Verify(c, fetched, t, later).value == m)
  {
    VerifyTheorem(c, fetched, s, now);
    VerifyTheorem(c, fetched, t, later);
  }

  /** After any later run, an accepted manifest is accepted again exactly until it expires
      or a newer one has been accepted. */
  lemma AcceptedAgain(c: Config, s: State, fetched: Fetched, now: int, rs: seq<Request>, later: int)
    requires AcceptedBy(c, s, CheckNow(fetched, now)).Some?
    ensures
      var m := AcceptedBy(c, s, CheckNow(fetched, now)).value;
      var end := Run(c, Step(c, s, CheckNow(fetched, now)), rs);
      && Acceptable(c, m, s, now)
      && m.metadataVersion.value <= end.highestMetadata
      && (AcceptedBy(c, end, CheckNow(fetched, later)).Some? <==>
          later < m.expires.value && end.highestMetadata == m.metadataVersion.value)
      && (AcceptedBy(c, end, CheckNow(fetched, later)).Some? ==>
          AcceptedBy(c, end, CheckNow(fetched, later)) == Some(m))
  {
    var next := Step(c, s, CheckNow(fetched, now));
    var end := Run(c, next, rs);
    MetadataTheorem(c, next, rs);
    FloorStays(c, next, rs);
    VerifyAgain(c, fetched, s, now, end, later);
  }

  // ---------- A ready download ----------

  lemma CompareReflexive(c: Config, a: Text)
    ensures Compare(c, a, a) == 0
  {
    SemverOrder.SemverPreorder(c.platform.lower, a, a, a);
  }

  lemma CompareEqualTransitive(c: Config, a: Text, b: Text, d: Text)
    requires Compare(c, a, b) == 0
    ensures Compare(c, b, a) == 0
    ensures Compare(c, b, d) == 0 <==> Compare(c, a, d) == 0
  {
    SemverOrder.SemverPreorder(c.platform.lower, a, b, d);
    SemverOrder.SemverPreorder(c.platform.lower, b, a, d);
    SemverOrder.SemverPreorder(c.platform.lower, d, b, a);
    SemverOrder.SemverPreorder(c.platform.lower, d, a, b);
  }

  ghost predicate AllOfRelease(c: Config, ms: seq<Manifest>, release: Text) {
    forall k | 0 <= k < |ms| :: Compare(c, ms[k].release, release) == 0
  }

  ghost predicate ReadyThroughout(c: Config, s: State, rs: seq<Request>) {
    forall k | 0 <= k <= |rs| :: Run(c, s, rs[..k]).phase == Downloaded
  }

  /** A ready download stays ready, with its package, through a whole run exactly when
      every manifest accepted on the way is of the same release. */
  lemma {:induction false} ReadyTheorem(c: Config, s: State, rs: seq<Request>)
    requires s.phase == Downloaded && s.available.Some?
    ensures ReadyThroughout(c, s, rs) <==> AllOfRelease(c, AcceptedAlong(c, s, rs), s.available.value.release)
    ensures ReadyThroughout(c, s, rs) ==> Run(c, s, rs).phase == Downloaded && Run(c, s, rs).package == s.package
    decreases rs
  {
    if rs == [] {
      assert rs[..0] == [];
    } else {
      var next := Step(c, s, rs[0]);
      var first := AcceptedBy(c, s, rs[0]);
      var rest := AcceptedAlong(c, next, rs[1..]);
      PrefixRuns(c, s, rs);
      ReadyStep(c, s, rs[0]);
      AllOfCons(c, first, rest, s.available.value.release);
      if next.phase == Downloaded {
        ReadyTheorem(c, next, rs[1..]);
        SameReleases(c, s, next, rest);
      } else {
        assert rs[1..][..0] == [];
        assert Run(c, next, rs[1..][..0]).phase != Downloaded;
      }
    }
  }

  lemma ReadyStep(c: Config, s: State, r: Request)
    requires s.phase == Downloaded && s.available.Some?
    ensures
      var next, first := Step(c, s, r), AcceptedBy(c, s, r);
      && next.available.Some? && next.package == s.package
      && (next.phase == Downloaded <==>
            (first.Some? ==> Compare(c, first.value.release, s.available.value.release) == 0))
      && (next.phase == Downloaded ==>
            next.available == s.available || Compare(c, next.available.value.release, s.available.value.release) == 0)
  {
  }

  lemma AllOfCons(c: Config, first: Option<Manifest>, rest: seq<Manifest>, release: Text)
    ensures AllOfRelease(c, (if first.Some? then [first.value] else []) + rest, release) <==>
            (first.Some? ==> Compare(c, first.value.release, release) == 0) && AllOfRelease(c, rest, release)
  {
    if first.Some? {
      var all := [first.value] + rest;
      if AllOfRelease(c, all, release) {
        assert all[0] == first.value;
        forall k | 0 <= k < |rest| ensures Compare(c, rest[k].release, release) == 0 { assert all[k + 1] == rest[k]; }
      }
    } else {
      assert [] + rest == rest;
    }
  }

  lemma SameReleases(c: Config, s: State, next: State, ms: seq<Manifest>)
    requires s.available.Some? && next.available.Some?
    requires Compare(c, next.available.value.release, s.available.value.release) == 0 || next.available == s.available
    ensures AllOfRelease(c, ms, next.available.value.release) <==> AllOfRelease(c, ms, s.available.value.release)
  {
    var a, b := next.available.value.release, s.available.value.release;
    CompareReflexive(c, a);
    assert Compare(c, a, b) == 0;
    forall k | 0 <= k < |ms| ensures Compare(c, ms[k].release, a) == 0 <==> Compare(c, ms[k].release, b) == 0 {
      EqualOnEither(c, ms[k].release, a, b);
    }
  }

  lemma EqualOnEither(c: Config, x: Text, a: Text, b: Text)
    requires Compare(c, a, b) == 0
    ensures Compare(c, x, a) == 0 <==> Compare(c, x, b) == 0
  {
    CompareEqualTransitive(c, a, b, x);
    SemverOrder.SemverPreorder(c.platform.lower, x, a, b);
    SemverOrder.SemverPreorder(c.platform.lower, x, b, a);
  }

  lemma PrefixRuns(c: Config, s: State, rs: seq<Request>)
    requires rs != []
    ensures ReadyThroughout(c, s, rs) <==> s.phase == Downloaded && ReadyThroughout(c, Step(c, s, rs[0]), rs[1..])
  {
    var next := Step(c, s, rs[0]);
    assert rs[..0] == [];
    forall k | 1 <= k <= |rs| ensures Run(c, s, rs[..k]) == Run(c, next, rs[1..][..k - 1]) {
      assert rs[..k][1..] == rs[1..][..k - 1];
    }
    if ReadyThroughout(c, s, rs) {
      assert Run(c, s, rs[..0]).phase == Downloaded;
      forall k | 0 <= k <= |rs| - 1 ensures Run(c, next, rs[1..][..k]).phase == Downloaded {
        assert Run(c, s, rs[..k + 1]).phase == Downloaded;
      }
    }
  }

  // ---------- What a ready download holds ----------

  /** The stored package is the target of some accepted manifest of the available release. */
  ghost predicate Justified(c: Config, s: State, accepted: set<Manifest>) {
    && (s.available.Some? ==> s.available.value in accepted)
    && (s.phase == Available ==> s.available.Some?)
    && (s.phase == Downloaded ==>
          && s.available.Some? && s.package.Some?
          && exists m :: m in accepted && Delivers(c, m, s.package.value)
                         && Compare(c, m.release, s.available.value.release) == 0)
  }

  ghost predicate Delivers(c: Config, m: Manifest, p: Package) {
    && m.size == Some(|p.bytes|) && p.sha256 == c.platform.hash(p.bytes)
    && c.platform.lower(p.sha256) == c.platform.lower(m.sha256)
    && p.release == m.release && TrustsUrl(c, m.url)
  }

  ghost function Accepting(c: Config, s: State, r: Request, accepted: set<Manifest>): set<Manifest> {
    accepted + (if AcceptedBy(c, s, r).Some? then {AcceptedBy(c, s, r).value} else {})
  }

  lemma StepJustified(c: Config, s: State, r: Request, accepted: set<Manifest>)
    requires Justified(c, s, accepted)
    ensures Justified(c, Step(c, s, r), Accepting(c, s, r, accepted))
  {
    var next := Step(c, s, r);
    var all := Accepting(c, s, r, accepted);
    if next.phase == Downloaded {
      if s.phase == Downloaded {
        var m :| m in accepted && Delivers(c, m, s.package.value) &&
              Compare(c, m.release, s.available.value.release) == 0;
        if AcceptedBy(c, s, r).Some? {
          SemverOrder.SemverPreorder(c.platform.lower, next.available.value.release, s.available.value.release, []);
          EqualOnEither(c, m.release, s.available.value.release, next.available.value.release);
        }
        assert m in all;
      } else {
        CompareReflexive(c, s.available.value.release);
        assert s.available.value in all;
      }
    }
  }

  /** Over any run, a ready download is always backed by an accepted manifest. */
  lemma {:induction false} DownloadTheorem(c: Config, s: State, rs: seq<Request>, accepted: set<Manifest>)
    requires Justified(c, s, accepted)
    ensures Justified(c, Run(c, s, rs), accepted + (set m | m in AcceptedAlong(c, s, rs)))
    decreases rs
  {
    if rs == [] {
      assert accepted + (set m | m in AcceptedAlong(c, s, rs)) == accepted;
    } else {
      StepJustified(c, s, rs[0], accepted);
      var all := Accepting(c, s, rs[0], accepted);
      DownloadTheorem(c, Step(c, s, rs[0]), rs[1..], all);
      assert accepted + (set m | m in AcceptedAlong(c, s, rs)) ==
             all + (set m | m in AcceptedAlong(c, Step(c, s, rs[0]), rs[1..]));
    }
  }

  /** A failed check keeps the phase only of a ready download or an earlier failure; an update
      being applied or already committed is demoted, unless the trust root is incomplete. */
  lemma FailedCheckPhase(c: Config, s: State, fetched: Fetched, now: int)
    requires c.trust.enabled && AcceptedBy(c, s, CheckNow(fetched, now)).None?
    ensures Step(c, s, CheckNow(fetched, now)).phase == s.phase <==>
            s.phase in {Downloaded, Failed} || (!TrustComplete(c.trust) && s.phase in {Applying, Committed})
    ensures Step(c, s, CheckNow(fetched, now)).phase in {s.phase, Failed}
  {
  }

  /** An update that is committed, or being applied, becomes an error when the manifest cannot
      be fetched. */
  lemma UnreachableDemotes(c: Config, s: State)
    requires c.trust.enabled && TrustComplete(c.trust) && s.phase in {Applying, Committed}
    ensures Step(c, s, CheckNow(Unreachable, 0)).phase == Failed
    ensures Recorded(s, FetchFailed).phase == s.phase
  {
  }

  const TRUSTED := Trust(true, [109], [107], [105], [112], Some({[111]}))

  /** Such an updater: everything configured, the last update committed. */
  lemma CommittedIsDemoted(platform: Platform)
    ensures
      var c := Config(platform, TRUSTED, [49, 46, 48, 46, 48]);
      var s := State(Committed, None, 1, [], None, NoError);
      Step(c, s, CheckNow(Unreachable, 0)).phase == Failed
  {
    assert [111] in TRUSTED.origins.value;
    UnreachableDemotes(Config(platform, TRUSTED, [49, 46, 48, 46, 48]), State(Committed, None, 1, [], None, NoError));
  }

  // ---------- What one request leaves ----------

  /** A check accepts exactly a genuine, acceptable manifest; it is then the available one, and
      the phase is Downloaded exactly when a ready download is of its release, else Available.
      Any other check changes nothing but phase and error. */
  lemma CheckTheorem(c: Config, s: State, fetched: Fetched, now: int)
    ensures
      var s' := Step(c, s, CheckNow(fetched, now));
      var takes := c.trust.enabled && TrustComplete(c.trust) && Genuine(c, fetched)
                   && Acceptable(c, c.platform.read(fetched.signed), s, now);
      && s'.package == s.package && s'.highestRelease == s.highestRelease
      && (!c.trust.enabled ==> s' == s)
      && (takes ==>
            var m := c.platform.read(fetched.signed);
            && s'.available == Some(m) && Some(s'.highestMetadata) == m.metadataVersion && s'.error == NoError
            && (s'.phase == Downloaded <==>
                  s.phase == Downloaded && s.available.Some? && Compare(c, m.release, s.available.value.release) == 0)
            && s'.phase in {Downloaded, Available})
      && (c.trust.enabled && !takes ==>
            s'.available == s.available && s'.highestMetadata == s.highestMetadata && s'.error != NoError)
  {
    VerifyTheorem(c, fetched, s, now);
  }

  /** A download is kept exactly when one is available and the bytes received have the length and
      hash of its target; then it is ready, and otherwise nothing but phase and error changes. */
  lemma DownloadStepTheorem(c: Config, s: State, received: Option<Bytes>)
    ensures
      var s' := Step(c, s, DownloadNow(received));
      var keeps := s.phase == Available && s.available.Some? && received.Some?
                   && TrustsUrl(c, s.available.value.url) && s.available.value.size == Some(|received.value|)
                   && c.platform.lower(c.platform.hash(received.value)) == c.platform.lower(s.available.value.sha256);
      && s'.available == s.available && s'.highestMetadata == s.highestMetadata && s'.highestRelease == s.highestRelease
      && (keeps ==>
            && s'.phase == Downloaded && s'.error == NoError && s'.package.Some?
            && s'.package.value.bytes == received.value && s'.package.value.release == s.available.value.release
            && s'.package.value.sha256 == c.platform.hash(received.value))
      && (!keeps ==>
            && s'.package == s.package && s'.error != NoError
            && s'.phase == (if s.phase in {Downloaded, Applying, Committed} then s.phase else Failed))
  {
  }
}
