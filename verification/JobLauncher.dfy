/**
 * Launch keys and schedule fires: packages/core/src/execution/job-launcher.ts:85-130 and
 * `processScheduleFire` of packages/bullmq/src/bullmq-schedule.ts:262-326.
 * SHA-256 is a function parameter; the random nonce of a duplicate-instance launch is an argument.
 */
module JobLauncher {
  import opened Common
  import opened JobKey
  import opened JobKeyText
  import opened Statuses
  import LaunchProtocol

  datatype LaunchError = MissingJobId | MissingScheduleName | MissingMethodName | UnsupportedParameters

  /** What a launch asks the repository for. */
  datatype Request = Request(name: string, key: string)

  function LaunchRequest(hash: string -> string, jobId: string, allowDuplicates: bool, params: Value,
                         identifying: Option<Value>, nonce: string): Result<Request, LaunchError> {
    match PreHash(if identifying.Some? then identifying.value else params)
    case Thrown(_) => Thrown(UnsupportedParameters)
    case Ok(text) => Ok(Request(jobId, if allowDuplicates then hash(text) + "::" + nonce else hash(text)))
  }

  /** One delivery of a schedule's queue job. */
  datatype Fire = Fire(jobId: string, scheduleName: string, methodName: string, scheduledAt: string, queueJobId: string)

  function FireParams(fire: Fire): Value {
    Object([Field("scheduled", Bool(true)), Field("scheduleName", Str(fire.scheduleName)),
            Field("scheduledAt", Str(fire.scheduledAt)), Field("scheduleQueueJobId", Str(fire.queueJobId))])
  }

  function FireIdentity(fire: Fire): Value {
    Object([Field("scheduled", Bool(true)), Field("scheduleName", Str(fire.scheduleName))])
  }

  /** The registered overlap policy defaults to skip; under skip only the stable identity makes the key. */
  function FireRequest(hash: string -> string, fire: Fire, registered: Option<Overlap>, allowDuplicates: bool, nonce: string)
    : Result<Request, LaunchError>
  {
    if fire.jobId == "" then Thrown(MissingJobId)
    else if fire.scheduleName == "" then Thrown(MissingScheduleName)
    else if fire.methodName == "" then Thrown(MissingMethodName)
    else
      var overlap := if registered.Some? then registered.value else Skip;
      LaunchRequest(hash, fire.jobId, allowDuplicates, FireParams(fire),
                    if overlap.Skip? then Some(FireIdentity(fire)) else None, nonce)
  }

  ghost predicate Skips(registered: Option<Overlap>) {
    registered == None || registered == Some(Skip)
  }

  ghost predicate WellFormed(fire: Fire) {
    fire.jobId != "" && fire.scheduleName != "" && fire.methodName != ""
  }

  lemma FireTexts(f: Fire, g: Fire)
    ensures PreHash(FireIdentity(f)).Ok? && PreHash(FireParams(f)).Ok?
    ensures PreHash(FireIdentity(f)) == PreHash(FireIdentity(g)) <==> f.scheduleName == g.scheduleName
    ensures PreHash(FireParams(f)) == PreHash(FireParams(g)) <==>
      f.scheduleName == g.scheduleName && f.scheduledAt == g.scheduledAt && f.queueJobId == g.queueJobId
  {
    IdentityMeans(f);
    IdentityMeans(g);
    ParamsMean(f);
    ParamsMean(g);
    hide PreHash, Means, FireIdentity, FireParams, PrintsNull;
    PreHashMeaning(FireIdentity(f), FireIdentity(g));
    PreHashMeaning(FireParams(f), FireParams(g));
    RecordsApart(f, g);
  }

  ghost function IdentityRecord(f: Fire): map<string, Meaning> {
    map["scheduleName" := Words(f.scheduleName), "scheduled" := Truth(true)]
  }

  ghost function ParamsRecord(f: Fire): map<string, Meaning> {
    map["scheduleQueueJobId" := Words(f.queueJobId), "scheduledAt" := Words(f.scheduledAt),
        "scheduleName" := Words(f.scheduleName), "scheduled" := Truth(true)]
  }

  lemma IdentityMeans(f: Fire)
    ensures Means(FireIdentity(f)) == Record(IdentityRecord(f))
    ensures KeysDistinct(FireIdentity(f)) && !PrintsNull(FireIdentity(f)) && PreHash(FireIdentity(f)).Ok?
  {
    var a := Field("scheduled", Bool(true));
    var b := Field("scheduleName", Str(f.scheduleName));
    assert [a, b][1..] == [b] && [b][1..] == [];
    assert MeansFields([b]) == map["scheduleName" := Words(f.scheduleName)];
    assert MeansFields([a, b]) == MeansFields([b])["scheduled" := Truth(true)];
    assert a.key != b.key by { assert |a.key| != |b.key|; }
    Hashable(FireIdentity(f).fields);
  }

  lemma Hashable(fields: seq<Field>)
    requires forall i :: 0 <= i < |fields| ==> fields[i].value.Bool? || fields[i].value.Str?
    ensures !PrintsNull(Object(fields)) && PreHash(Object(fields)).Ok?
  {
    assert forall i :: 0 <= i < |fields| ==> !HasBigInt(fields[i].value);
  }

  lemma ParamsMean(f: Fire)
    ensures Means(FireParams(f)) == Record(ParamsRecord(f))
    ensures KeysDistinct(FireParams(f)) && !PrintsNull(FireParams(f)) && PreHash(FireParams(f)).Ok?
  {
    var a := Field("scheduled", Bool(true));
    var b := Field("scheduleName", Str(f.scheduleName));
    var c := Field("scheduledAt", Str(f.scheduledAt));
    var d := Field("scheduleQueueJobId", Str(f.queueJobId));
    assert [a, b, c, d][1..] == [b, c, d] && [b, c, d][1..] == [c, d] && [c, d][1..] == [d] && [d][1..] == [];
    assert MeansFields([d]) == map["scheduleQueueJobId" := Words(f.queueJobId)];
    assert MeansFields([c, d]) == MeansFields([d])["scheduledAt" := Words(f.scheduledAt)];
    assert MeansFields([b, c, d]) == MeansFields([c, d])["scheduleName" := Words(f.scheduleName)];
    assert MeansFields([a, b, c, d]) == MeansFields([b, c, d])["scheduled" := Truth(true)];
    assert |a.key| == 9 && |b.key| == 12 && |c.key| == 11 && |d.key| == 18;
    Hashable(FireParams(f).fields);
  }

  lemma RecordsApart(f: Fire, g: Fire)
    ensures IdentityRecord(f) == IdentityRecord(g) <==> f.scheduleName == g.scheduleName
    ensures ParamsRecord(f) == ParamsRecord(g) <==>
      f.scheduleName == g.scheduleName && f.scheduledAt == g.scheduledAt && f.queueJobId == g.queueJobId
  {
    var (a, b, c, d) := ("scheduled", "scheduleName", "scheduledAt", "scheduleQueueJobId");
    assert |a| == 9 && |b| == 12 && |c| == 11 && |d| == 18;
    assert IdentityRecord(f)[b] == Words(f.scheduleName) && IdentityRecord(g)[b] == Words(g.scheduleName);
    assert ParamsRecord(f)[b] == Words(f.scheduleName) && ParamsRecord(g)[b] == Words(g.scheduleName);
    assert ParamsRecord(f)[c] == Words(f.scheduledAt) && ParamsRecord(g)[c] == Words(g.scheduledAt);
    assert ParamsRecord(f)[d] == Words(f.queueJobId) && ParamsRecord(g)[d] == Words(g.queueJobId);
  }

  /** No collision of SHA-256: the two texts in question, if they differ, have different digests. */
  ghost predicate Separates(hash: string -> string, v: Value, w: Value) {
    PreHash(v).Ok? && PreHash(w).Ok? && hash(PreHash(v).value) == hash(PreHash(w).value) ==> PreHash(v) == PreHash(w)
  }

  /**
   * Under skip, and without duplicate instances, two fires ask for the same instance exactly if they are
   * fires of the same schedule of the same job: time and queue job id do not enter the key.
   */
  lemma SkipIdentity(hash: string -> string, f: Fire, g: Fire, registered: Option<Overlap>, n: string, m: string)
    requires WellFormed(f) && WellFormed(g) && Skips(registered)
    ensures f.jobId == g.jobId && f.scheduleName == g.scheduleName ==>
      FireRequest(hash, f, registered, false, n) == FireRequest(hash, g, registered, false, m)
    ensures Separates(hash, FireIdentity(f), FireIdentity(g)) ==>
      (FireRequest(hash, f, registered, false, n) == FireRequest(hash, g, registered, false, m) ==>
        f.jobId == g.jobId && f.scheduleName == g.scheduleName)
    ensures FireRequest(hash, f, registered, false, n).Ok?
  {
    FireTexts(f, g);
    hide PreHash, FireIdentity, FireParams;
  }

  /** Under the other policies every delivery has a key of its own. */
  lemma OtherOverlapsSeparate(hash: string -> string, f: Fire, g: Fire, registered: Option<Overlap>, n: string, m: string)
    requires WellFormed(f) && WellFormed(g) && !Skips(registered) && Separates(hash, FireParams(f), FireParams(g))
    ensures FireRequest(hash, f, registered, false, n) == FireRequest(hash, g, registered, false, m) <==>
      f.jobId == g.jobId && f.scheduleName == g.scheduleName && f.scheduledAt == g.scheduledAt && f.queueJobId == g.queueJobId
  {
    FireTexts(f, g);
    FireTexts(g, f);
    hide PreHash, FireIdentity, FireParams;
  }

  // ---------------------------------------------------------------- launches in general

  /** The parameters of which the key is made. */
  ghost function KeyedBy(params: Value, identifying: Option<Value>): Value {
    match identifying case Some(v) => v case None => params
  }

  /** All digests are equally long, as those of SHA-256 are. */
  ghost predicate EquallyLong(hash: string -> string) {
    forall a, b :: |hash(a)| == |hash(b)|
  }

  lemma KeysApart(digest: string, digest': string, d: bool, d': bool, nonce: string, nonce': string)
    requires |digest| == |digest'|
    ensures (if d then digest + "::" + nonce else digest) == (if d' then digest' + "::" + nonce' else digest')
       <==> digest == digest' && d == d' && (d ==> nonce == nonce')
  {
    var (a, b) := (digest + "::" + nonce, digest' + "::" + nonce');
    assert a[..|digest|] == digest && b[..|digest|] == digest';
    assert a[|digest| + 2..] == nonce && b[|digest| + 2..] == nonce';
  }

  /**
   * Two launches ask for the same instance exactly if they are launches of the same job whose keyed parameters
   * print the same meaning, and either neither job allows duplicates or both do and the nonces agree.  A launch
   * is refused exactly if its keyed parameters hold a BigInt or are nothing.
   */
  lemma LaunchIdentity(hash: string -> string, jobId: string, d: bool, v: Value, identifying: Option<Value>, nonce: string,
                       jobId': string, d': bool, w: Value, identifying': Option<Value>, nonce': string)
    requires EquallyLong(hash) && Separates(hash, KeyedBy(v, identifying), KeyedBy(w, identifying'))
    requires KeysDistinct(KeyedBy(v, identifying)) && KeysDistinct(KeyedBy(w, identifying'))
    ensures var (a, b) := (KeyedBy(v, identifying), KeyedBy(w, identifying'));
            var (r, r') := (LaunchRequest(hash, jobId, d, v, identifying, nonce), LaunchRequest(hash, jobId', d', w, identifying', nonce'));
      && (r == Thrown(UnsupportedParameters) <==> HasBigInt(a) || IsNothing(a)) && (r.Thrown? ==> r.error.UnsupportedParameters?)
      && (r.Ok? && r'.Ok? ==>
            (r == r' <==> jobId == jobId' && PrintedMeaning(a) == PrintedMeaning(b) && d == d' && (d ==> nonce == nonce')))
  {
    var (a, b) := (KeyedBy(v, identifying), KeyedBy(w, identifying'));
    PreHashPrintedMeaning(a, b);
    RequestMade(hash, jobId, d, v, identifying, nonce);
    RequestMade(hash, jobId', d', w, identifying', nonce');
    hide PreHash, PrintedMeaning, KeysDistinct, HasBigInt, IsNothing, LaunchRequest, KeyedBy, EquallyLong;
    if PreHash(a).Ok? && PreHash(b).Ok? {
      DigestsApart(hash, PreHash(a).value, PreHash(b).value, d, d', nonce, nonce');
    }
  }

  function Keyed(digest: string, duplicates: bool, nonce: string): string {
    if duplicates then digest + "::" + nonce else digest
  }

  lemma RequestMade(hash: string -> string, jobId: string, d: bool, v: Value, identifying: Option<Value>, nonce: string)
    ensures var r := LaunchRequest(hash, jobId, d, v, identifying, nonce);
      match PreHash(KeyedBy(v, identifying))
      case Thrown(_) => r == Thrown(UnsupportedParameters)
      case Ok(text) => r == Ok(Request(jobId, Keyed(hash(text), d, nonce)))
  {
    hide PreHash;
  }

  lemma DigestsApart(hash: string -> string, x: string, y: string, d: bool, d': bool, nonce: string, nonce': string)
    requires EquallyLong(hash) && (hash(x) == hash(y) ==> x == y)
    ensures Keyed(hash(x), d, nonce) == Keyed(hash(y), d', nonce') <==> x == y && d == d' && (d ==> nonce == nonce')
  {
    KeysApart(hash(x), hash(y), d, d', nonce, nonce');
  }

  /** Where duplicates are allowed, no two fires ask for the same instance unless they draw the same nonce. */
  lemma DuplicateFiresApart(hash: string -> string, f: Fire, g: Fire, registered: Option<Overlap>, registered': Option<Overlap>,
                            d: bool, n: string, m: string)
    requires WellFormed(f) && WellFormed(g) && EquallyLong(hash) && (n != m || !d)
    ensures FireRequest(hash, f, registered, true, n) != FireRequest(hash, g, registered', d, m)
  {
    FireTexts(f, g);
    FireTexts(g, f);
    hide PreHash, FireIdentity, FireParams;
    var a := PreHash(if Skips(registered) then FireIdentity(f) else FireParams(f)).value;
    var b := PreHash(if Skips(registered') then FireIdentity(g) else FireParams(g)).value;
    KeysApart(hash(a), hash(b), true, d, n, m);
  }

  /** A fire fails exactly if one of its three names is missing, and the first one missing is reported. */
  lemma FireErrors(hash: string -> string, f: Fire, registered: Option<Overlap>, d: bool, nonce: string)
    ensures var r := FireRequest(hash, f, registered, d, nonce);
      && (r == Thrown(MissingJobId) <==> f.jobId == "")
      && (r == Thrown(MissingScheduleName) <==> f.jobId != "" && f.scheduleName == "")
      && (r == Thrown(MissingMethodName) <==> f.jobId != "" && f.scheduleName != "" && f.methodName == "")
      && (r.Ok? <==> f.jobId != "" && f.scheduleName != "" && f.methodName != "")
      && (r.Ok? ==> r.value.name == f.jobId)
  {
    FireTexts(f, f);
    hide PreHash, FireIdentity, FireParams;
  }

  /**
   * Fires of one schedule under skip never overlap: in every interleaving of launches from any number of
   * processes, at most one execution launched for the schedule's instance is starting or started.
   */
  lemma SkipFiresNeverOverlap(hash: string -> string, f: Fire, g: Fire, registered: Option<Overlap>, n: string, m: string,
                              actions: seq<LaunchProtocol.Action>, db: LaunchProtocol.Database,
                              e: LaunchProtocol.ExecutionId, e': LaunchProtocol.ExecutionId)
    requires WellFormed(f) && WellFormed(g) && Skips(registered)
    requires f.jobId == g.jobId && f.scheduleName == g.scheduleName
    requires LaunchProtocol.Reaches(LaunchProtocol.EMPTY, actions, db)
    requires FireRequest(hash, f, registered, false, n).Ok? && FireRequest(hash, g, registered, false, m).Ok?
    requires var r := FireRequest(hash, f, registered, false, n).value; LaunchProtocol.RunningFor(db, e, r.name, r.key)
    requires var r := FireRequest(hash, g, registered, false, m).value; LaunchProtocol.RunningFor(db, e', r.name, r.key)
    ensures e == e'
  {
    hide FireRequest, LaunchProtocol.Reaches, LaunchProtocol.RunningFor;
    SkipIdentity(hash, f, g, registered, n, m);
    var r := FireRequest(hash, f, registered, false, n).value;
    LaunchProtocol.MutualExclusion(actions, db, r.name, r.key);
  }
}
