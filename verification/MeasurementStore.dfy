/** The layered measurement store: raw scans and the evaluations derived from them, over the expiring
    table.  Rows are re-validated when they come back; what does not validate is a miss with a reason. */
module MeasurementStore {
  import opened Options
  import opened Text
  import C = ExpiringCache

  const SCHEMA_VERSION: int := 1
  const INTEL_MAX_AGE_SECONDS: real := 21600.0
  const DIGEST_WIDTH: nat := 71

  // ---- what is stored ---------------------------------------------------------------------------------

  /** A content-addressed identity.  The registry is the part of the name before the first `/`. */
  datatype RawIdentity = RawIdentity(registry: string, repository: string, digest: string, platform: string)

  predicate Canonical(i: RawIdentity) {
    && i.registry != [] && '/' !in i.registry
    && i.repository != []
    && |i.digest| == DIGEST_WIDTH
    && '#' !in i.platform
  }

  const SOME_DIGEST: string := seq(DIGEST_WIDTH, i => '0')

  type Identity = i: RawIdentity | Canonical(i) witness RawIdentity("r", "x", SOME_DIGEST, "os/arch")

  datatype Fingerprint = Fingerprint(name: string, version: string, dbRevision: string, options: string)

  datatype ScanStatus = OK | ERROR | TIMEOUT | PARTIAL

  /** `findings` stands for everything else the scanner reported. */
  datatype Scan = Scan(reference: string, status: ScanStatus, timestamp: string, findings: nat)

  predicate Verified(scan: Scan) {
    scan.status.OK? && scan.timestamp != ""
  }

  datatype Record = Record(
    registry: string, repository: string, digest: string, platform: string,
    scanner: string, version: string, dbRevision: string, options: string,
    measuredAt: string, storedAt: real, validUntil: real, scan: Scan)

  /** A row as it comes back: not an object, or an object with whatever fields it has.  `record` is what
      the fields validate to as a measurement record, if they do. */
  datatype Payload =
    | NotAnObject
    | Object(schema: Option<int>, layer: Option<string>, record: Option<Record>,
             analysis: Option<nat>, scanMeasuredAt: Option<string>, intelAt: Option<real>)

  datatype Reason =
    | ABSENT | EXPIRED | CORRUPT | SCHEMA_MISMATCH | IDENTITY_MISMATCH | SCANNER_CHANGED
    | OPTIONS_CHANGED | DB_REVISION_CHANGED | DB_REVISION_UNKNOWN | INCOMPLETE_SCAN
    | POLICY_CHANGED | ENRICHMENT_STALE | UNREADABLE | BYPASSED

  datatype Lookup<T> = Hit(value: T) | Miss(reason: Reason)

  datatype Config = Config(scanTtl: real, unknownTtl: real)

  /** Lifetimes are at least a second, whatever was asked for. */
  ghost predicate ValidConfig(c: Config) {
    c.scanTtl >= 1.0 && c.unknownTtl >= 1.0
  }

  // ---- keys -------------------------------------------------------------------------------------------

  function Material(i: RawIdentity): string {
    i.registry + ['/'] + (i.repository + ['@'] + i.digest + ['#'] + i.platform)
  }

  const SCAN_PREFIX := "m:scan:v1:"
  const EVAL_PREFIX := "m:eval:v1:"

  function ScanKey(name: string, i: RawIdentity): string {
    SCAN_PREFIX + (name + ['|'] + Material(i))
  }

  function EvalKey(name: string, policy: string, i: RawIdentity): string {
    EVAL_PREFIX + (name + ['|'] + (policy + ['|'] + Material(i)))
  }

  /** The material names the identity: two canonical identities never share it. */
  lemma MaterialIsInjective(a: Identity, b: Identity)
    requires Material(a) == Material(b)
    ensures a == b
  {
    var x, y := a.repository + ['@'] + a.digest, b.repository + ['@'] + b.digest;
    FirstSeparator(a.registry, x + ['#'] + a.platform, b.registry, y + ['#'] + b.platform, '/');
    LastSeparator(x, a.platform, y, b.platform, '#');
    assert a.digest == x[|x| - DIGEST_WIDTH..] && b.digest == y[|y| - DIGEST_WIDTH..];
    assert a.repository == x[..|x| - DIGEST_WIDTH - 1] && b.repository == y[..|y| - DIGEST_WIDTH - 1];
  }

  lemma ScanKeyIsInjective(name: string, a: Identity, other: string, b: Identity)
    requires '|' !in name && '|' !in other && ScanKey(name, a) == ScanKey(other, b)
    ensures name == other && a == b
  {
    assert name + ['|'] + Material(a) == ScanKey(name, a)[|SCAN_PREFIX|..];
    assert other + ['|'] + Material(b) == ScanKey(other, b)[|SCAN_PREFIX|..];
    FirstSeparator(name, Material(a), other, Material(b), '|');
    MaterialIsInjective(a, b);
  }

  lemma EvalKeyIsInjective(name: string, policy: string, a: Identity, other: string, rule: string, b: Identity)
    requires '|' !in name && '|' !in other && '|' !in policy && '|' !in rule
    requires EvalKey(name, policy, a) == EvalKey(other, rule, b)
    ensures name == other && policy == rule && a == b
  {
    var x, y := policy + ['|'] + Material(a), rule + ['|'] + Material(b);
    assert name + ['|'] + x == EvalKey(name, policy, a)[|EVAL_PREFIX|..];
    assert other + ['|'] + y == EvalKey(other, rule, b)[|EVAL_PREFIX|..];
    FirstSeparator(name, x, other, y, '|');
    FirstSeparator(policy, Material(a), rule, Material(b), '|');
    MaterialIsInjective(a, b);
  }

  /** A bar in a scanner's name does let two evaluations share a row. */
  lemma BarsMixPolicies(name: string, middle: string, policy: string, i: Identity)
    ensures EvalKey(name + ['|'] + middle, policy, i) == EvalKey(name, middle + ['|'] + policy, i)
  {
    var rest := ['|'] + (policy + ['|'] + Material(i));
    assert (name + ['|'] + middle) + rest == name + ['|'] + (middle + rest);
    assert middle + rest == (middle + ['|'] + policy) + ['|'] + Material(i);
  }

  lemma LayersNeverMeet(name: string, a: RawIdentity, other: string, policy: string, b: RawIdentity)
    ensures ScanKey(name, a) != EvalKey(other, policy, b)
  {
    assert ScanKey(name, a)[2] == 's' && EvalKey(other, policy, b)[2] == 'e';
  }

  // ---- reading ----------------------------------------------------------------------------------------

  function Validate(c: Config, raw: Payload, i: RawIdentity, fp: Fingerprint, now: real): Lookup<Record> {
    if raw.NotAnObject? then Miss(CORRUPT)
    else if raw.schema != Some(SCHEMA_VERSION) || raw.layer != Some("scan") then Miss(SCHEMA_MISMATCH)
    else if raw.record.None? then Miss(CORRUPT)
    else
      var r := raw.record.value;
      if RawIdentity(r.registry, r.repository, r.digest, r.platform) != i || !Contains(r.scan.reference, i.digest) then
        Miss(IDENTITY_MISMATCH)
      else if !r.scan.status.OK? || !Verified(r.scan) then Miss(INCOMPLETE_SCAN)
      else if r.scanner != fp.name || r.version != fp.version then Miss(SCANNER_CHANGED)
      else if r.options != fp.options then Miss(OPTIONS_CHANGED)
      else if fp.dbRevision != "" && r.dbRevision != fp.dbRevision then Miss(DB_REVISION_CHANGED)
      else if fp.dbRevision == "" && (r.dbRevision != "" || !(0.0 <= now - r.storedAt <= c.unknownTtl)) then
        Miss(DB_REVISION_UNKNOWN)
      else if r.validUntil < now then Miss(EXPIRED)
      else Hit(r)
  }

  /** The answer to a read of the scan layer, from whatever rows there are. */
  function ScanLookup(c: Config, rows: C.Rows<Payload>, i: RawIdentity, fp: Fingerprint, now: real): Lookup<Record> {
    match C.Answer(rows, C.VersionedKey(ScanKey(fp.name, i)), now)
    case None => Miss(ABSENT)
    case Some(raw) => Validate(c, raw, i, fp, now)
  }

  function EvalLookup(c: Config, rows: C.Rows<Payload>, i: RawIdentity, fp: Fingerprint, policy: string,
                      now: real): Lookup<nat>
  {
    match ScanLookup(c, rows, i, fp, now)
    case Miss(reason) => Miss(reason)
    case Hit(record) =>
      match C.Answer(rows, C.VersionedKey(EvalKey(fp.name, policy, i)), now)
      case None => Miss(POLICY_CHANGED)
      case Some(raw) =>
        if raw.NotAnObject? || raw.schema != Some(SCHEMA_VERSION) then Miss(SCHEMA_MISMATCH)
        else if raw.scanMeasuredAt != Some(record.measuredAt) then Miss(EXPIRED)
        else if raw.intelAt.Some? && now - raw.intelAt.value > INTEL_MAX_AGE_SECONDS then Miss(ENRICHMENT_STALE)
        else
          match raw.analysis
          case Some(analysis) => Hit(analysis)
          case None => Miss(CORRUPT)
  }

  // ---- writing ----------------------------------------------------------------------------------------

  function TtlOf(c: Config, fp: Fingerprint): real {
    if fp.dbRevision != "" then c.scanTtl else c.unknownTtl
  }

  function RecordOf(c: Config, i: RawIdentity, fp: Fingerprint, scan: Scan, now: real): Record {
    Record(i.registry, i.repository, i.digest, i.platform, fp.name, fp.version, fp.dbRevision, fp.options,
           scan.timestamp, now, now + TtlOf(c, fp), scan)
  }

  function ScanPayload(r: Record): Payload {
    Object(Some(SCHEMA_VERSION), Some("scan"), Some(r), None, None, None)
  }

  function EvalPayload(analysis: nat, scanMeasuredAt: string, intelAt: Option<real>): Payload {
    Object(Some(SCHEMA_VERSION), None, None, Some(analysis), Some(scanMeasuredAt), intelAt)
  }

  // ---- histories --------------------------------------------------------------------------------------

  /** What a process does with the store.  `works` is whether the write itself succeeds; `identity` is
      None for an image whose bytes were not confirmed.  `Other` is any use of rows outside these two
      layers, and any clearing or cleaning up. */
  datatype Event =
    | PutScan(identity: Option<Identity>, fp: Fingerprint, scan: Scan, works: bool)
    | GetScan(id: Identity, fp: Fingerprint)
    | PutEval(id: Identity, fp: Fingerprint, policy: string, analysis: nat, scanMeasuredAt: string,
              intelAt: Option<real>, works: bool)
    | GetEval(id: Identity, fp: Fingerprint, policy: string)
    | Other(op: C.Op<Payload>)

  datatype Step = Step(event: Event, at: real)

  /** Scanner names and policies carry no bar, and the rest of the application keeps to its own rows. */
  ghost predicate WellBehaved(e: Event) {
    match e
    case PutScan(_, fp, _, _) => '|' !in fp.name
    case GetScan(_, fp) => '|' !in fp.name
    case PutEval(_, fp, policy, _, _, _, _) => '|' !in fp.name && '|' !in policy
    case GetEval(_, fp, policy) => '|' !in fp.name && '|' !in policy
    case Other(op) =>
      match op
      case Set(key, _, _) =>
        && (forall name, i :: key != C.VersionedKey(ScanKey(name, i)))
        && (forall name, policy, i :: key != C.VersionedKey(EvalKey(name, policy, i)))
      case _ => true
  }

  function AfterGet(c: Config, rows: C.Rows<Payload>, key: string, discard: bool, now: real): C.Rows<Payload> {
    var read := C.Apply(rows, C.Step(C.Get(key), now));
    if discard then C.Apply(read, C.Step(C.Delete(key), now)) else read
  }

  /** Reading a scan evicts a stale row, and a row that makes no sense. */
  function AfterGetScan(c: Config, rows: C.Rows<Payload>, i: RawIdentity, fp: Fingerprint, now: real): C.Rows<Payload> {
    var lookup := ScanLookup(c, rows, i, fp, now);
    var discard := lookup == Miss(CORRUPT) || lookup == Miss(SCHEMA_MISMATCH);
    AfterGet(c, rows, C.VersionedKey(ScanKey(fp.name, i)), discard, now)
  }

  function Apply(c: Config, rows: C.Rows<Payload>, step: Step): C.Rows<Payload> {
    match step.event
    case PutScan(identity, fp, scan, works) =>
      if identity.None? || !Verified(scan) || !works then rows
      else
        C.Apply(rows, C.Step(C.Set(C.VersionedKey(ScanKey(fp.name, identity.value)),
                                   ScanPayload(RecordOf(c, identity.value, fp, scan, step.at)),
                                   TtlOf(c, fp)), step.at))
    case GetScan(i, fp) => AfterGetScan(c, rows, i, fp, step.at)
    case PutEval(i, fp, policy, analysis, scanMeasuredAt, intelAt, works) =>
      if !works then rows
      else
        C.Apply(rows, C.Step(C.Set(C.VersionedKey(EvalKey(fp.name, policy, i)),
                                   EvalPayload(analysis, scanMeasuredAt, intelAt), c.scanTtl), step.at))
    case GetEval(i, fp, policy) =>
      var read := AfterGetScan(c, rows, i, fp, step.at);
      if ScanLookup(c, rows, i, fp, step.at).Miss? then read
      else AfterGet(c, read, C.VersionedKey(EvalKey(fp.name, policy, i)), false, step.at)
    case Other(op) => C.Apply(rows, C.Step(op, step.at))
  }

  function Run(c: Config, history: seq<Step>): C.Rows<Payload> {
    if history == [] then map[] else Apply(c, Run(c, history[..|history| - 1]), history[|history| - 1])
  }

  // ---- the reference: the latest thing stored ---------------------------------------------------------

  /** What was handed over to be stored, by which scanner, and when. */
  datatype Put = Put(fp: Fingerprint, scan: Scan, at: real)

  /** The last complete scan stored for this identity by this scanner. */
  function LatestPut(history: seq<Step>, i: Identity, name: string): Option<Put> {
    if history == [] then None
    else
      var front, last := history[..|history| - 1], history[|history| - 1];
      match last.event
      case PutScan(identity, fp, scan, works) =>
        if works && identity == Some(i) && fp.name == name && Verified(scan)
        then Some(Put(fp, scan, last.at)) else LatestPut(front, i, name)
      case _ => LatestPut(front, i, name)
  }

  /** How long a stored scan may be used: less long when the writer could not tell its database's revision. */
  function Lifetime(c: Config, p: Put): real {
    if p.fp.dbRevision == "" then c.unknownTtl else c.scanTtl
  }

  /** The record holds exactly what was put: the identity, the whole scan and its own time, the scanner with
      its version, revision and options, when it was stored and how long it may be used. */
  predicate Holds(c: Config, r: Record, i: RawIdentity, p: Put) {
    && r.registry == i.registry && r.repository == i.repository
    && r.digest == i.digest && r.platform == i.platform
    && r.scan == p.scan && r.measuredAt == p.scan.timestamp
    && r.scanner == p.fp.name && r.version == p.fp.version
    && r.dbRevision == p.fp.dbRevision && r.options == p.fp.options
    && r.storedAt == p.at && r.validUntil == p.at + Lifetime(c, p)
  }

  /** The record of the last scan stored for this identity by this scanner. */
  function LatestRecord(c: Config, history: seq<Step>, i: Identity, name: string): Option<Record> {
    if history == [] then None
    else
      var front, last := history[..|history| - 1], history[|history| - 1];
      match last.event
      case PutScan(identity, fp, scan, works) =>
        if works && identity == Some(i) && fp.name == name && Verified(scan)
        then Some(RecordOf(c, i, fp, scan, last.at)) else LatestRecord(c, front, i, name)
      case _ => LatestRecord(c, front, i, name)
  }

  datatype Evaluation = Evaluation(analysis: nat, scanMeasuredAt: string, intelAt: Option<real>, validUntil: real)

  function LatestEval(c: Config, history: seq<Step>, i: Identity, name: string, policy: string): Option<Evaluation> {
    if history == [] then None
    else
      var front, last := history[..|history| - 1], history[|history| - 1];
      match last.event
      case PutEval(id, fp, rule, analysis, scanMeasuredAt, intelAt, works) =>
        if works && id == i && fp.name == name && rule == policy
        then Some(Evaluation(analysis, scanMeasuredAt, intelAt, last.at + c.scanTtl))
        else LatestEval(c, front, i, name, policy)
      case _ => LatestEval(c, front, i, name, policy)
  }

  lemma {:induction false} LatestRecordHoldsLatestPut(c: Config, history: seq<Step>, i: Identity, name: string)
    ensures
      match LatestPut(history, i, name)
      case None => LatestRecord(c, history, i, name).None?
      case Some(p) =>
        && LatestRecord(c, history, i, name).Some?
        && Holds(c, LatestRecord(c, history, i, name).value, i, p)
        && p.fp.name == name && Verified(p.scan)
  {
    if history != [] {
      LatestRecordHoldsLatestPut(c, history[..|history| - 1], i, name);
    }
  }

  ghost predicate AllWellBehaved(history: seq<Step>) {
    forall s | s in history :: WellBehaved(s.event)
  }

  // ---- rows are the latest thing stored ---------------------------------------------------------------

  lemma ScanRowsDiffer(name: string, a: Identity, other: string, b: Identity)
    requires '|' !in name && '|' !in other
    requires C.VersionedKey(ScanKey(name, a)) == C.VersionedKey(ScanKey(other, b))
    ensures name == other && a == b
  {
    C.VersionedKeysDiffer(ScanKey(name, a), ScanKey(other, b));
    ScanKeyIsInjective(name, a, other, b);
  }

  lemma EvalRowsDiffer(name: string, policy: string, a: Identity, other: string, rule: string, b: Identity)
    requires '|' !in name && '|' !in other && '|' !in policy && '|' !in rule
    requires C.VersionedKey(EvalKey(name, policy, a)) == C.VersionedKey(EvalKey(other, rule, b))
    ensures name == other && policy == rule && a == b
  {
    C.VersionedKeysDiffer(EvalKey(name, policy, a), EvalKey(other, rule, b));
    EvalKeyIsInjective(name, policy, a, other, rule, b);
  }

  lemma LayerRowsDiffer(name: string, a: RawIdentity, other: string, policy: string, b: RawIdentity)
    ensures C.VersionedKey(ScanKey(name, a)) != C.VersionedKey(EvalKey(other, policy, b))
  {
    LayersNeverMeet(name, a, other, policy, b);
    if C.VersionedKey(ScanKey(name, a)) == C.VersionedKey(EvalKey(other, policy, b)) {
      C.VersionedKeysDiffer(ScanKey(name, a), EvalKey(other, policy, b));
    }
  }

  ghost predicate IsScanRow(rows: C.Rows<Payload>, key: string, latest: Option<Record>) {
    key in rows ==> latest.Some? && rows[key] == C.Row(ScanPayload(latest.value), latest.value.validUntil)
  }

  lemma {:induction false} ScanRowIsLatest(c: Config, history: seq<Step>, i: Identity, name: string)
    requires AllWellBehaved(history) && '|' !in name
    ensures IsScanRow(Run(c, history), C.VersionedKey(ScanKey(name, i)), LatestRecord(c, history, i, name))
  {
    if history != [] {
      var front, last := history[..|history| - 1], history[|history| - 1];
      assert last in history && forall s | s in front :: s in history;
      ScanRowIsLatest(c, front, i, name);
      ScanRowKept(c, Run(c, front), LatestRecord(c, front, i, name), last, i, name);
    }
  }

  lemma ScanRowKept(c: Config, rows: C.Rows<Payload>, latest: Option<Record>, step: Step, i: Identity, name: string)
    requires WellBehaved(step.event) && '|' !in name
    requires IsScanRow(rows, C.VersionedKey(ScanKey(name, i)), latest)
    ensures
      var key := C.VersionedKey(ScanKey(name, i));
      match step.event
      case PutScan(identity, fp, scan, works) =>
        if works && identity == Some(i) && fp.name == name && Verified(scan)
        then IsScanRow(Apply(c, rows, step), key, Some(RecordOf(c, i, fp, scan, step.at)))
        else IsScanRow(Apply(c, rows, step), key, latest)
      case _ => IsScanRow(Apply(c, rows, step), key, latest)
  {
    var key := C.VersionedKey(ScanKey(name, i));
    match step.event
    case PutScan(identity, fp, _, _) =>
      if identity.Some? && key == C.VersionedKey(ScanKey(fp.name, identity.value)) {
        ScanRowsDiffer(name, i, fp.name, identity.value);
      }
    case PutEval(id, fp, policy, _, _, _, _) => LayerRowsDiffer(name, i, fp.name, policy, id);
    case _ =>
  }

  ghost predicate IsEvalRow(rows: C.Rows<Payload>, key: string, latest: Option<Evaluation>) {
    key in rows ==>
      && latest.Some?
      && rows[key] == C.Row(EvalPayload(latest.value.analysis, latest.value.scanMeasuredAt, latest.value.intelAt),
                            latest.value.validUntil)
  }

  lemma {:induction false} EvalRowIsLatest(c: Config, history: seq<Step>, i: Identity, name: string, policy: string)
    requires AllWellBehaved(history) && '|' !in name && '|' !in policy
    ensures IsEvalRow(Run(c, history), C.VersionedKey(EvalKey(name, policy, i)),
                      LatestEval(c, history, i, name, policy))
  {
    if history != [] {
      var front, last := history[..|history| - 1], history[|history| - 1];
      assert last in history && forall s | s in front :: s in history;
      EvalRowIsLatest(c, front, i, name, policy);
      EvalRowKept(c, Run(c, front), LatestEval(c, front, i, name, policy), last, i, name, policy);
    }
  }

  lemma EvalRowKept(c: Config, rows: C.Rows<Payload>, latest: Option<Evaluation>, step: Step,
    i: Identity, name: string, policy: string)
    requires WellBehaved(step.event) && '|' !in name && '|' !in policy
    requires IsEvalRow(rows, C.VersionedKey(EvalKey(name, policy, i)), latest)
    ensures
      var key := C.VersionedKey(EvalKey(name, policy, i));
      match step.event
      case PutEval(id, fp, rule, analysis, scanMeasuredAt, intelAt, works) =>
        if works && id == i && fp.name == name && rule == policy
        then IsEvalRow(Apply(c, rows, step), key,
                       Some(Evaluation(analysis, scanMeasuredAt, intelAt, step.at + c.scanTtl)))
        else IsEvalRow(Apply(c, rows, step), key, latest)
      case _ => IsEvalRow(Apply(c, rows, step), key, latest)
  {
    var key := C.VersionedKey(EvalKey(name, policy, i));
    match step.event
    case PutEval(id, fp, rule, _, _, _, _) =>
      if key == C.VersionedKey(EvalKey(fp.name, rule, id)) {
        EvalRowsDiffer(name, policy, i, fp.name, rule, id);
      }
    case PutScan(identity, fp, _, _) =>
      if identity.Some? {
        LayerRowsDiffer(fp.name, identity.value, name, policy, i);
      }
    case _ =>
  }

  // ---- what a hit means -------------------------------------------------------------------------------

  /** What makes a stored record good for a reader: the same tool with the same options, a complete scan
      that names the identity, still valid, and revisions known and equal or both unknown and recent. */
  ghost predicate Reusable(c: Config, r: Record, i: RawIdentity, fp: Fingerprint, now: real) {
    && r.version == fp.version && r.options == fp.options
    && r.scan.status.OK? && r.scan.timestamp != "" && Contains(r.scan.reference, i.digest)
    && now <= r.validUntil
    && r.dbRevision == fp.dbRevision
    && (fp.dbRevision == "" ==> 0.0 <= now - r.storedAt <= c.unknownTtl)
  }

  lemma {:induction false} ValidateIsReusable(c: Config, r: Record, i: RawIdentity, fp: Fingerprint, now: real)
    requires RawIdentity(r.registry, r.repository, r.digest, r.platform) == i && r.scanner == fp.name
    ensures Validate(c, ScanPayload(r), i, fp, now).Hit? <==> Reusable(c, r, i, fp, now)
    ensures Validate(c, ScanPayload(r), i, fp, now).Hit? ==> Validate(c, ScanPayload(r), i, fp, now).value == r
  {
  }

  /** Whatever reason a stored record is refused for is a fact about it. */
  lemma MissReasonIsTrue(c: Config, r: Record, i: RawIdentity, fp: Fingerprint, now: real)
    ensures
      match Validate(c, ScanPayload(r), i, fp, now)
      case Hit(_) => true
      case Miss(reason) =>
        match reason
        case IDENTITY_MISMATCH =>
          RawIdentity(r.registry, r.repository, r.digest, r.platform) != i || !Contains(r.scan.reference, i.digest)
        case INCOMPLETE_SCAN => !Verified(r.scan)
        case SCANNER_CHANGED => r.scanner != fp.name || r.version != fp.version
        case OPTIONS_CHANGED => r.options != fp.options
        case DB_REVISION_CHANGED => fp.dbRevision != "" && r.dbRevision != fp.dbRevision
        case DB_REVISION_UNKNOWN =>
          fp.dbRevision == "" && (r.dbRevision != "" || now < r.storedAt || now > r.storedAt + c.unknownTtl)
        case EXPIRED => now > r.validUntil
        case _ => false
  {
  }

  /** A row is evicted by a read exactly when it is no object or no record of this schema and layer: whatever
      else makes it useless to this reader, another may still use it. */
  lemma EvictedIffSenseless(c: Config, raw: Payload, i: RawIdentity, fp: Fingerprint, now: real)
    ensures
      var answer := Validate(c, raw, i, fp, now);
      answer == Miss(CORRUPT) || answer == Miss(SCHEMA_MISMATCH) <==>
        raw.NotAnObject? || raw.schema != Some(1) || raw.layer != Some("scan") || raw.record.None?
  {
  }

  lemma {:induction false} LatestRecordIsForIt(c: Config, history: seq<Step>, i: Identity, name: string)
    requires LatestRecord(c, history, i, name).Some?
    ensures
      var r := LatestRecord(c, history, i, name).value;
      RawIdentity(r.registry, r.repository, r.digest, r.platform) == i && r.scanner == name && Verified(r.scan)
  {
    if history != [] && LatestRecord(c, history[..|history| - 1], i, name).Some? {
      LatestRecordIsForIt(c, history[..|history| - 1], i, name);
    }
  }

  /** What makes a stored scan good for a reader, said of what was put: the same tool with the same options, a
      reference that names the digest, within its lifetime, and revisions known and equal or both unknown and
      the scan recent. */
  ghost predicate Good(c: Config, p: Put, i: RawIdentity, fp: Fingerprint, now: real) {
    && p.fp.version == fp.version && p.fp.options == fp.options && p.fp.dbRevision == fp.dbRevision
    && Contains(p.scan.reference, i.digest)
    && now <= p.at + Lifetime(c, p)
    && (fp.dbRevision == "" ==> 0.0 <= now - p.at <= c.unknownTtl)
  }

  /** Over any history and any clock, a scan-layer hit holds the latest scan put for exactly that identity and
      scanner, and that scan is good for the reader. */
  lemma {:induction false} ScanHitIsLatest(c: Config, history: seq<Step>, i: Identity, fp: Fingerprint, now: real)
    requires AllWellBehaved(history) && '|' !in fp.name
    requires ScanLookup(c, Run(c, history), i, fp, now).Hit?
    ensures
      var r, put := ScanLookup(c, Run(c, history), i, fp, now).value, LatestPut(history, i, fp.name);
      && LatestRecord(c, history, i, fp.name) == Some(r)
      && put.Some? && Holds(c, r, i, put.value) && Good(c, put.value, i, fp, now)
  {
    LatestRecordHoldsLatestPut(c, history, i, fp.name);
    ScanRowIsLatest(c, history, i, fp.name);
    LatestRecordIsForIt(c, history, i, fp.name);
    ValidateIsReusable(c, LatestRecord(c, history, i, fp.name).value, i, fp, now);
  }

  /** An evaluation hit is the latest evaluation stored for that identity, scanner and policy, and rests
      on a scan hit with the measurement time it was derived from. */
  lemma EvaluationHitRestsOnScan(c: Config, history: seq<Step>, i: Identity, fp: Fingerprint, policy: string, now: real)
    requires AllWellBehaved(history) && '|' !in fp.name && '|' !in policy
    requires EvalLookup(c, Run(c, history), i, fp, policy, now).Hit?
    ensures ScanLookup(c, Run(c, history), i, fp, now).Hit?
    ensures LatestEval(c, history, i, fp.name, policy).Some?
    ensures
      var e := LatestEval(c, history, i, fp.name, policy).value;
      && e.analysis == EvalLookup(c, Run(c, history), i, fp, policy, now).value
      && e.scanMeasuredAt == ScanLookup(c, Run(c, history), i, fp, now).value.measuredAt
      && (e.intelAt.Some? ==> now - e.intelAt.value <= 6.0 * 3600.0)
  {
    EvalRowIsLatest(c, history, i, fp.name, policy);
  }

  // ---- and when there is one --------------------------------------------------------------------------

  /** Since the latest scan was stored for it, nobody cleared the table or deleted its row. */
  predicate Undisturbed(history: seq<Step>, i: Identity, name: string) {
    if history == [] then true
    else
      var front, last := history[..|history| - 1], history[|history| - 1];
      match last.event
      case PutScan(identity, fp, scan, works) =>
        (works && identity == Some(i) && fp.name == name && Verified(scan)) || Undisturbed(front, i, name)
      case Other(op) =>
        (match op
         case Clear => false
         case Delete(key) => key != C.VersionedKey(ScanKey(name, i)) && Undisturbed(front, i, name)
         case _ => Undisturbed(front, i, name))
      case _ => Undisturbed(front, i, name)
  }

  ghost predicate Monotone(history: seq<Step>, now: real) {
    && (forall j, k | 0 <= j < k < |history| :: history[j].at <= history[k].at)
    && (forall j | 0 <= j < |history| :: history[j].at <= now)
  }

  lemma {:induction false} ScanRowSurvives(c: Config, history: seq<Step>, i: Identity, name: string, now: real)
    requires AllWellBehaved(history) && '|' !in name && Monotone(history, now) && Undisturbed(history, i, name)
    requires LatestRecord(c, history, i, name).Some? && LatestRecord(c, history, i, name).value.validUntil >= now
    ensures C.VersionedKey(ScanKey(name, i)) in Run(c, history)
  {
    var front, last := history[..|history| - 1], history[|history| - 1];
    assert last in history && forall s | s in front :: s in history;
    ScanRowIsLatest(c, front, i, name);
    if LatestRecord(c, front, i, name).Some? && LatestRecord(c, front, i, name).value.validUntil >= now
       && Undisturbed(front, i, name)
    {
      ScanRowSurvives(c, front, i, name, last.at);
      LatestRecordIsForIt(c, front, i, name);
      RowOutlivesStep(c, Run(c, front), LatestRecord(c, front, i, name).value, last, i, name);
    }
  }

  /** A valid row is removed by nothing but clearing and deletion. */
  lemma RowOutlivesStep(c: Config, rows: C.Rows<Payload>, r: Record, step: Step, i: Identity, name: string)
    requires WellBehaved(step.event) && '|' !in name && step.at <= r.validUntil
    requires C.VersionedKey(ScanKey(name, i)) in rows
    requires rows[C.VersionedKey(ScanKey(name, i))] == C.Row(ScanPayload(r), r.validUntil)
    requires RawIdentity(r.registry, r.repository, r.digest, r.platform) == i && r.scanner == name
    requires !(step.event.Other? && step.event.op.Clear?)
    requires !(step.event.Other? && step.event.op == C.Delete(C.VersionedKey(ScanKey(name, i))))
    ensures C.VersionedKey(ScanKey(name, i)) in Apply(c, rows, step)
  {
    var key := C.VersionedKey(ScanKey(name, i));
    match step.event
    case GetScan(id, fp) => ReadKeepsRow(c, rows, r, id, fp, step.at, i, name);
    case GetEval(id, fp, policy) =>
      ReadKeepsRow(c, rows, r, id, fp, step.at, i, name);
      LayerRowsDiffer(name, i, fp.name, policy, id);
    case _ =>
  }

  lemma ReadKeepsRow(c: Config, rows: C.Rows<Payload>, r: Record, id: Identity, fp: Fingerprint, now: real,
                     i: Identity, name: string)
    requires '|' !in name && '|' !in fp.name && now <= r.validUntil
    requires C.VersionedKey(ScanKey(name, i)) in rows
    requires rows[C.VersionedKey(ScanKey(name, i))] == C.Row(ScanPayload(r), r.validUntil)
    ensures C.VersionedKey(ScanKey(name, i)) in AfterGetScan(c, rows, id, fp, now)
  {
    if C.VersionedKey(ScanKey(name, i)) == C.VersionedKey(ScanKey(fp.name, id)) {
      ScanRowsDiffer(name, i, fp.name, id);
    }
  }

  /** Under a clock that does not go back, reading hits exactly when the latest scan put for the identity and
      scanner is good for the reader. */
  lemma ScanHitIffReusable(c: Config, history: seq<Step>, i: Identity, fp: Fingerprint, now: real)
    requires AllWellBehaved(history) && '|' !in fp.name && Monotone(history, now)
    requires Undisturbed(history, i, fp.name)
    ensures ScanLookup(c, Run(c, history), i, fp, now).Hit?
       <==> && LatestPut(history, i, fp.name).Some?
            && Good(c, LatestPut(history, i, fp.name).value, i, fp, now)
  {
    LatestRecordHoldsLatestPut(c, history, i, fp.name);
    ScanRowIsLatest(c, history, i, fp.name);
    if LatestRecord(c, history, i, fp.name).Some? {
      LatestRecordIsForIt(c, history, i, fp.name);
      ValidateIsReusable(c, LatestRecord(c, history, i, fp.name).value, i, fp, now);
      if LatestRecord(c, history, i, fp.name).value.validUntil >= now {
        ScanRowSurvives(c, history, i, fp.name, now);
      }
    }
  }

  /** Since the latest evaluation was stored for it, nobody cleared the table or deleted its row. */
  predicate EvalUndisturbed(history: seq<Step>, i: Identity, name: string, policy: string) {
    if history == [] then true
    else
      var front, last := history[..|history| - 1], history[|history| - 1];
      match last.event
      case PutEval(id, fp, rule, _, _, _, works) =>
        (works && id == i && fp.name == name && rule == policy) || EvalUndisturbed(front, i, name, policy)
      case Other(op) =>
        (match op
         case Clear => false
         case Delete(key) => key != C.VersionedKey(EvalKey(name, policy, i)) && EvalUndisturbed(front, i, name, policy)
         case _ => EvalUndisturbed(front, i, name, policy))
      case _ => EvalUndisturbed(front, i, name, policy)
  }

  lemma {:induction false} EvalRowSurvives(c: Config, history: seq<Step>, i: Identity, name: string, policy: string,
                                           now: real)
    requires AllWellBehaved(history) && '|' !in name && '|' !in policy && Monotone(history, now)
    requires EvalUndisturbed(history, i, name, policy)
    requires LatestEval(c, history, i, name, policy).Some?
    requires LatestEval(c, history, i, name, policy).value.validUntil >= now
    ensures C.VersionedKey(EvalKey(name, policy, i)) in Run(c, history)
  {
    var front, last := history[..|history| - 1], history[|history| - 1];
    assert last in history && forall s | s in front :: s in history;
    if LatestEval(c, front, i, name, policy).Some? && LatestEval(c, front, i, name, policy).value.validUntil >= now
       && EvalUndisturbed(front, i, name, policy)
    {
      EvalRowSurvives(c, front, i, name, policy, last.at);
      EvalRowIsLatest(c, front, i, name, policy);
      EvalRowOutlivesStep(c, Run(c, front), last, i, name, policy);
    }
  }

  /** An evaluation that has not expired is removed by nothing but clearing and deletion. */
  lemma EvalRowOutlivesStep(c: Config, rows: C.Rows<Payload>, step: Step, i: Identity, name: string, policy: string)
    requires WellBehaved(step.event)
    requires
      var key := C.VersionedKey(EvalKey(name, policy, i));
      key in rows && step.at <= rows[key].expiresAt
    requires !(step.event.Other? && step.event.op.Clear?)
    requires !(step.event.Other? && step.event.op == C.Delete(C.VersionedKey(EvalKey(name, policy, i))))
    ensures C.VersionedKey(EvalKey(name, policy, i)) in Apply(c, rows, step)
  {
    match step.event
    case GetScan(id, fp) => LayerRowsDiffer(fp.name, id, name, policy, i);
    case GetEval(id, fp, _) => LayerRowsDiffer(fp.name, id, name, policy, i);
    case _ =>
  }

  /** An evaluation is good for a reader: not expired, derived from the scan in force, its threat intelligence
      recent or never consulted. */
  ghost predicate Derived(e: Evaluation, r: Record, now: real) {
    && now <= e.validUntil && e.scanMeasuredAt == r.measuredAt
    && (e.intelAt.Some? ==> now - e.intelAt.value <= 6.0 * 3600.0)
  }

  /** Under a clock that does not go back, reading an evaluation hits exactly when the scan underneath does
      and the latest evaluation stored for identity, scanner and policy was derived from it and is good. */
  lemma EvaluationHitIff(c: Config, history: seq<Step>, i: Identity, fp: Fingerprint, policy: string, now: real)
    requires AllWellBehaved(history) && '|' !in fp.name && '|' !in policy && Monotone(history, now)
    requires EvalUndisturbed(history, i, fp.name, policy)
    ensures EvalLookup(c, Run(c, history), i, fp, policy, now).Hit?
       <==> && ScanLookup(c, Run(c, history), i, fp, now).Hit?
            && LatestEval(c, history, i, fp.name, policy).Some?
            && Derived(LatestEval(c, history, i, fp.name, policy).value,
                       ScanLookup(c, Run(c, history), i, fp, now).value, now)
  {
    EvalRowIsLatest(c, history, i, fp.name, policy);
    if LatestEval(c, history, i, fp.name, policy).Some?
       && LatestEval(c, history, i, fp.name, policy).value.validUntil >= now
    {
      EvalRowSurvives(c, history, i, fp.name, policy, now);
    }
  }

  /** Storing a complete scan and reading it back within its lifetime: a hit exactly when the scanner's
      reference names the digest, which reading demands and storing does not; and the hit is what was put. */
  lemma {:induction false} RoundTrip(c: Config, history: seq<Step>, i: Identity, fp: Fingerprint, scan: Scan,
                                     at: real, now: real)
    requires ValidConfig(c) && AllWellBehaved(history) && '|' !in fp.name && Monotone(history, at) && Verified(scan)
    requires at <= now <= at + if fp.dbRevision == "" then c.unknownTtl else c.scanTtl
    ensures
      var longer := history + [Step(PutScan(Some(i), fp, scan, true), at)];
      var found := ScanLookup(c, Run(c, longer), i, fp, now);
      && (found.Hit? <==> Contains(scan.reference, i.digest))
      && (found.Hit? ==> Holds(c, found.value, i, Put(fp, scan, at)))
  {
    hide Run, ScanLookup;
    var put := Step(PutScan(Some(i), fp, scan, true), at);
    var longer := history + [put];
    assert longer[..|longer| - 1] == history && longer[|longer| - 1] == put;
    assert forall s | s in longer :: s in history || s == put;
    ScanHitIffReusable(c, longer, i, fp, now);
    if ScanLookup(c, Run(c, longer), i, fp, now).Hit? {
      ScanHitIsLatest(c, longer, i, fp, now);
    }
  }

  // ---- the store as an object -------------------------------------------------------------------------

  class Store {
    const cache: C.SQLiteCache?<Payload>
    const config: Config
    var writesFailed: nat

    constructor (cache: C.SQLiteCache?<Payload>, config: Config)
      ensures this.cache == cache && this.config == config && writesFailed == 0
    {
      this.cache, this.config, writesFailed := cache, config, 0;
    }

    /** `fails`: the cache raised instead of answering. */
    method GetScan(i: Identity, fp: Fingerprint, now: real, fails: bool) returns (r: Lookup<Record>)
      requires cache != null ==> cache.Valid()
      modifies if cache == null then {} else {cache}
      ensures cache == null ==> r == Miss(BYPASSED)
      ensures cache != null ==> cache.Valid()
      ensures cache != null && fails ==> r == Miss(UNREADABLE) && cache.rows == old(cache.rows)
      ensures cache != null && !fails ==>
                && r == ScanLookup(config, old(cache.rows), i, fp, now)
                && cache.rows == Apply(config, old(cache.rows), Step(Event.GetScan(i, fp), now))
    {
      if cache == null {
        return Miss(BYPASSED);
      }
      if fails {
        return Miss(UNREADABLE);
      }
      var key := ScanKey(fp.name, i);
      ghost var before := cache.rows;
      var raw := cache.Get(key, now);
      LastApplied(cache.history);
      match raw
      case None => return Miss(ABSENT);
      case Some(payload) =>
        r := Validate(config, payload, i, fp, now);
        if r == Miss(CORRUPT) || r == Miss(SCHEMA_MISMATCH) {
          cache.Delete(key, now);
          LastApplied(cache.history);
        }
    }

    /** Stores a complete scan of a confirmed identity; never raises, and says whether a row was written. */
    method PutScan(identity: Option<Identity>, fp: Fingerprint, scan: Scan, now: real, works: bool)
      returns (stored: bool)
      requires cache != null ==> cache.Valid()
      modifies this`writesFailed
      modifies if cache == null then {} else {cache}
      ensures stored <==> cache != null && identity.Some? && scan.status.OK? && scan.timestamp != "" && works
      ensures cache != null ==> cache.Valid()
      ensures cache != null ==>
                cache.rows == Apply(config, old(cache.rows), Step(Event.PutScan(identity, fp, scan, works), now))
      ensures writesFailed == old(writesFailed)
                              + if cache != null && identity.Some? && Verified(scan) && !works then 1 else 0
    {
      if cache == null || identity.None? {
        return false;
      }
      if !scan.status.OK? || !Verified(scan) {
        return false;
      }
      var record := RecordOf(config, identity.value, fp, scan, now);
      if !works {
        writesFailed := writesFailed + 1;
        return false;
      }
      cache.Set(ScanKey(fp.name, identity.value), ScanPayload(record), TtlOf(config, fp), now);
      LastApplied(cache.history);
      return true;
    }

    method PutEvaluation(i: Identity, fp: Fingerprint, policy: string, analysis: nat, scanMeasuredAt: string,
                         intelAt: Option<real>, now: real, works: bool)
      requires cache != null ==> cache.Valid()
      modifies this`writesFailed
      modifies if cache == null then {} else {cache}
      ensures cache != null ==> cache.Valid()
      ensures cache != null ==>
        var event := PutEval(i, fp, policy, analysis, scanMeasuredAt, intelAt, works);
        cache.rows == Apply(config, old(cache.rows), Step(event, now))
      ensures writesFailed == old(writesFailed) + if cache != null && !works then 1 else 0
    {
      hide EvalKey, EvalPayload, C.Run;
      if cache == null {
        return;
      }
      if !works {
        writesFailed := writesFailed + 1;
        return;
      }
      cache.Set(EvalKey(fp.name, policy, i), EvalPayload(analysis, scanMeasuredAt, intelAt), config.scanTtl, now);
      LastApplied(cache.history);
    }

    /** Reads the scan underneath again before it answers.  Either read can raise instead of answering. */
    method GetEvaluation(i: Identity, fp: Fingerprint, policy: string, now: real, scanFails: bool, evalFails: bool)
      returns (r: Lookup<nat>)
      requires cache != null ==> cache.Valid()
      modifies if cache == null then {} else {cache}
      ensures cache == null ==> r == Miss(BYPASSED)
      ensures cache != null ==> cache.Valid()
      ensures cache != null && scanFails ==> r == Miss(UNREADABLE) && cache.rows == old(cache.rows)
      ensures cache != null && !scanFails && evalFails ==>
        var scan := ScanLookup(config, old(cache.rows), i, fp, now);
        && r == (if scan.Miss? then Miss(scan.reason) else Miss(UNREADABLE))
        && cache.rows == Apply(config, old(cache.rows), Step(Event.GetScan(i, fp), now))
      ensures cache != null && !scanFails && !evalFails ==>
                && r == EvalLookup(config, old(cache.rows), i, fp, policy, now)
                && cache.rows == Apply(config, old(cache.rows), Step(GetEval(i, fp, policy), now))
    {
      if cache == null {
        return Miss(BYPASSED);
      }
      var scanned := GetScan(i, fp, now, scanFails);
      match scanned
      case Miss(reason) => return Miss(reason);
      case Hit(record) =>
        if evalFails {
          return Miss(UNREADABLE);
        }
        ghost var middle := cache.rows;
        var raw := cache.Get(EvalKey(fp.name, policy, i), now);
        LastApplied(cache.history);
        LayerRowsDiffer(fp.name, i, fp.name, policy, i);
        match raw
        case None => return Miss(POLICY_CHANGED);
        case Some(payload) =>
          if payload.NotAnObject? || payload.schema != Some(SCHEMA_VERSION) {
            return Miss(SCHEMA_MISMATCH);
          }
          if payload.scanMeasuredAt != Some(record.measuredAt) {
            return Miss(EXPIRED);
          }
          if payload.intelAt.Some? && now - payload.intelAt.value > INTEL_MAX_AGE_SECONDS {
            return Miss(ENRICHMENT_STALE);
          }
          match payload.analysis
          case Some(analysis) => return Hit(analysis);
          case None => return Miss(CORRUPT);
    }
  }

  lemma LastApplied(history: seq<C.Step<Payload>>)
    requires history != []
    ensures C.Run(history) == C.Apply(C.Run(history[..|history| - 1]), history[|history| - 1])
  {
  }
}
