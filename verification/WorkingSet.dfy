/** The transcript as a working set: digesting one tool result, and evicting old results in
two bounded passes until the transcript fits its budget. */
module WorkingSet {
  import opened Sequences
  import opened Transcript

  // ---- JSON results --------------------------------------------------------------------

  /** A field of a tool result; containers and scalars are known by their rendering. */
  datatype Value = Str(text: string) | Scalar(repr: string) | Container(repr: string)

  datatype Parsed = NotJson | NotObject | Object(fields: map<string, Value>)

  /** The host's JSON library.  `dumps` renders fields in the order of `KEEP_KEYS`. */
  datatype Codec = Codec(
    parse: string -> Parsed, dumps: map<string, Value> -> string, sorted: set<string> -> seq<string>,
    truthy: Value -> bool, shown: Value -> string)

  const KEEP_KEYS: seq<string> := [
    "job", "status", "sim_status", "verdict", "errors", "warnings",
    "accepted", "blocking_gates", "task_class", "coverage", "path",
    "seed", "cached", "denied", "error", "summary", "test", "top",
    "total_area_um2", "wns_ns", "slack_ns", "flake_rate"]

  const SMALL := 400
  const FIELD_CLIP := 220
  const CONTAINER_KEEP := 200

  /** The longest string the host can hold. */
  const MAX_LENGTH := 0x7FFF_FFFF_FFFF_FFFF

  function Decimal(n: nat): (s: string)
    ensures |s| > 0
    decreases n
  {
    (if n < 10 then "" else Decimal(n / 10)) + ["0123456789"[n % 10]]
  }

  function Join(parts: seq<string>, sep: string): string {
    if parts == [] then "" else if |parts| == 1 then parts[0] else parts[0] + sep + Join(parts[1..], sep)
  }

  function Address(c: Codec, name: string, data: map<string, Value>): string {
    if "job" in data && Truthy(c, data["job"]) then "job " + Shown(c, data["job"]) + ": job.log / job.status"
    else if "waves_job" in data && Truthy(c, data["waves_job"]) then
      "job " + Shown(c, data["waves_job"]) + ": job.log / job.status"
    else if "path" in data && Truthy(c, data["path"]) then "fs.read " + Shown(c, data["path"])
    else "re-run " + name
  }

  function Truthy(c: Codec, v: Value): bool {
    if v.Str? then v.text != "" else c.truthy(v)
  }

  function Shown(c: Codec, v: Value): string {
    if v.Str? then v.text else c.shown(v)
  }

  // ---- digesting one result ----------------------------------------------------------------

  predicate Survives(v: Value) {
    v.Container? ==> |v.repr| <= CONTAINER_KEEP
  }

  function Clipped(v: Value): Value {
    if v.Str? && |v.text| > FIELD_CLIP then Str(v.text[..FIELD_CLIP] + "\U{2026}") else v
  }

  function Kept(data: map<string, Value>): map<string, Value> {
    map k | k in KEEP_KEYS && k in data && Survives(data[k]) :: Clipped(data[k])
  }

  /** The head of a text that is not JSON, and how much of it went. */
  function HeadOnly(output: string): string
    requires |output| > SMALL
  {
    output[..FIELD_CLIP] + ("\U{2026} [" + Decimal(|output| - FIELD_CLIP)) + HEAD_SUFFIX
  }

  const HEAD_SUFFIX := " chars evicted from context; re-read with job.log / fs.read]"

  const LIST_SUFFIX := " result evicted from context; re-run the tool to see it again]"

  function ListNote(name: string, output: string): string {
    ("[" + Decimal(|output|) + "-char " + name) + LIST_SUFFIX
  }

  function EvictedNote(c: Codec, name: string, data: map<string, Value>): string {
    var dropped := c.sorted(data.Keys - Kept(data).Keys);
    "evicted: " + Join(if |dropped| > 8 then dropped[..8] else dropped, ", ") +
    (if |dropped| > 8 then " (+" + Decimal(|dropped| - 8) + " more)" else "") +
    " \U{2014} " + Address(c, name, data) + "]"
  }

  /** A result's verdict and address, and whether anything changed. */
  function Digest(c: Codec, name: string, output: string): (r: (string, bool))
    ensures !r.1 ==> r.0 == output
    ensures |output| <= SMALL ==> r == (output, false)
  {
    if |output| <= SMALL then (output, false)
    else match c.parse(output)
      case NotJson => (HeadOnly(output), true)
      case NotObject => (ListNote(name, output), true)
      case Object(data) =>
        if data.Keys - Kept(data).Keys == {} then (c.dumps(Kept(data)), true)
        else (c.dumps(Kept(data)) + " [" + EvictedNote(c, name, data), true)
  }

  /** A digest keeps a field exactly when its key is a verdict, an address or a count, and its
      value is a string, a scalar or a small container; a long string is clipped. */
  lemma KeptMeans(data: map<string, Value>, k: string)
    ensures k in Kept(data) <==>
      && k in data && (data[k].Container? ==> |data[k].repr| <= 200)
      && (k in {"job", "status", "sim_status", "verdict", "errors", "warnings", "accepted", "blocking_gates"}
          || k in {"task_class", "coverage", "path", "seed", "cached", "denied", "error", "summary", "test", "top"}
          || k in {"total_area_um2", "wns_ns", "slack_ns", "flake_rate"})
    ensures k in Kept(data) ==>
      if data[k].Str? && |data[k].text| > 220
      then Kept(data)[k].Str? && Kept(data)[k].text == data[k].text[..220] + "\U{2026}"
      else Kept(data)[k] == data[k]
  {
  }

  ghost predicate EndsWith(s: string, suffix: string) {
    |suffix| <= |s| && s[|s| - |suffix|..] == suffix
  }

  lemma NoneDropped(data: map<string, Value>)
    ensures data.Keys - Kept(data).Keys == {} <==> Kept(data).Keys == data.Keys
  {
    assert Kept(data).Keys <= data.Keys;
    if data.Keys - Kept(data).Keys == {} {
      forall k | k in data ensures k in Kept(data) { assert k !in data.Keys - Kept(data).Keys; }
    }
  }

  /** The digest of an object is its kept fields; when fields were dropped it ends with the way to
      get them back. */
  lemma ObjectDigestMeans(c: Codec, name: string, output: string, data: map<string, Value>)
    requires |output| > SMALL && c.parse(output) == Object(data)
    ensures var d, whole := Digest(c, name, output).0, Kept(data).Keys == data.Keys;
      && Digest(c, name, output).1 && c.dumps(Kept(data)) <= d && (whole <==> d == c.dumps(Kept(data)))
      && (!whole ==> EndsWith(d, Address(c, name, data) + "]"))
  {
    hide Kept, Join, Decimal, Address;
    NoneDropped(data);
    var head := c.dumps(Kept(data)) + " [";
    assert EndsWith(head + EvictedNote(c, name, data), Address(c, name, data) + "]");
  }

  /** A digest that drops a field names the way back: the job, else the job of the waves, else
      the file, else the tool. */
  lemma DigestLeavesTheWayBack(c: Codec, name: string, output: string, data: map<string, Value>, k: string)
    requires |output| > SMALL && c.parse(output) == Object(data) && k in data && k !in Kept(data)
    ensures var d := Digest(c, name, output).0;
      var job, waves, path := Set(c, data, "job"), Set(c, data, "waves_job"), Set(c, data, "path");
      && (job ==> EndsWith(d, "job " + Shown(c, data["job"]) + ": job.log / job.status]"))
      && (!job && waves ==> EndsWith(d, "job " + Shown(c, data["waves_job"]) + ": job.log / job.status]"))
      && (!job && !waves && path ==> EndsWith(d, "fs.read " + Shown(c, data["path"]) + "]"))
      && (!job && !waves && !path ==> EndsWith(d, "re-run " + name + "]"))
  {
    hide Kept, Digest, Shown, EndsWith;
    ObjectDigestMeans(c, name, output, data);
    var job := if Set(c, data, "job") then Shown(c, data["job"])
      else if Set(c, data, "waves_job") then Shown(c, data["waves_job"]) else "";
    assert "job " + job + ": job.log / job.status" + "]" == "job " + job + ": job.log / job.status]";
  }

  /** The field is there with a value that counts as true. */
  predicate Set(c: Codec, data: map<string, Value>, k: string) {
    k in data && if data[k].Str? then data[k].text != "" else c.truthy(data[k])
  }

  /** What is assumed of the JSON library, for objects that it has itself parsed. */
  ghost predicate SoundCodec(c: Codec) {
    && (forall s, data :: c.parse(s) == Object(data) ==> c.parse(c.dumps(Kept(data))) == Object(Kept(data)))
    // a complete document followed by more text is not JSON
    && (forall s, data, x :: c.parse(s) == Object(data) ==> c.parse(c.dumps(Kept(data)) + " [" + x) == NotJson)
    // nor is a text whose last list item ends in a bare word
    && (forall x :: c.parse(x + HEAD_SUFFIX) == NotJson)
    && (forall x :: c.parse(x + LIST_SUFFIX) == NotJson)
  }

  lemma {:induction false} DecimalIsShort(n: nat, k: nat)
    requires 1 <= k && n < Power10(k)
    ensures |Decimal(n)| <= k
    decreases k
  {
    if n >= 10 {
      assert Power10(k) == 10 * Power10(k - 1);
      assert n / 10 < Power10(k - 1);
      assert k > 1 by { assert Power10(0) == 1; }
      DecimalIsShort(n / 10, k - 1);
    }
  }

  function Power10(k: nat): (p: nat)
    ensures p > 0
  {
    if k == 0 then 1 else 10 * Power10(k - 1)
  }

  lemma HeadOnlyIsSmall(output: string)
    requires SMALL < |output| <= MAX_LENGTH
    ensures |HeadOnly(output)| <= SMALL
  {
    assert Power10(20) == 100000000000000000000 by {
      assert Power10(10) == 10000000000;
    }
    DecimalIsShort(|output| - FIELD_CLIP, 20);
  }

  lemma HeadOnlyIsNotJson(c: Codec, output: string)
    requires SoundCodec(c) && |output| > SMALL
    ensures c.parse(HeadOnly(output)) == NotJson
  {
  }

  lemma KeptTwice(data: map<string, Value>)
    ensures Kept(Kept(data)) == Kept(data)
  {
  }

  lemma ListNoteIsNotJson(c: Codec, name: string, output: string)
    requires SoundCodec(c)
    ensures c.parse(ListNote(name, output)) == NotJson
  {
  }

  lemma ObjectDigestSettles(c: Codec, name: string, output: string, data: map<string, Value>)
    requires SoundCodec(c) && c.parse(output) == Object(data)
    ensures c.parse(c.dumps(Kept(data)) + " [" + EvictedNote(c, name, data)) == NotJson
    ensures c.parse(c.dumps(Kept(data))) == Object(Kept(data))
  {
    hide EvictedNote, Kept;
  }

  /** What one digest leaves: a text that is small, is not JSON, or is exactly its own digest. */
  lemma DigestSettles(c: Codec, name: string, output: string)
    requires SoundCodec(c)
    ensures var d := Digest(c, name, output).0;
      |d| <= SMALL || c.parse(d) == NotJson || Digest(c, name, d).0 == d
  {
    hide EvictedNote, HeadOnly, ListNote, SoundCodec;
    if |output| > SMALL {
      match c.parse(output)
      case NotJson => HeadOnlyIsNotJson(c, output);
      case NotObject => ListNoteIsNotJson(c, name, output);
      case Object(data) =>
        KeptTwice(data);
        ObjectDigestSettles(c, name, output, data);
    }
  }

  /** Digesting reaches a fixpoint after two digests. */
  lemma DigestFixpoint(c: Codec, name: string, output: string)
    requires SoundCodec(c)
    requires |Digest(c, name, output).0| <= MAX_LENGTH
    ensures var twice := Digest(c, name, Digest(c, name, output).0).0; Digest(c, name, twice).0 == twice
  {
    hide EvictedNote, HeadOnly, ListNote, SoundCodec;
    var d := Digest(c, name, output).0;
    DigestSettles(c, name, output);
    if |d| > SMALL && c.parse(d) == NotJson {
      HeadOnlyIsSmall(d);
    }
  }

  // ---- the job id survives ---------------------------------------------------------------

  function JobHead(job: string): string {
    "{\"job\": \"" + job
  }

  predicate PlainChar(ch: char) {
    ' ' <= ch <= '~' && ch != '"' && ch != '\\'
  }

  /** A job id that JSON renders without escapes. */
  ghost predicate Plain(job: string) {
    forall i :: 0 <= i < |job| ==> PlainChar(job[i])
  }

  ghost predicate HasPlainJob(data: map<string, Value>) {
    "job" in data && data["job"].Str? && Plain(data["job"].text)
  }

  /** The text opens with a kept job id; a clipped one is followed by the ellipsis, in whatever
      way that is rendered. */
  ghost predicate OpensWith(job: string, text: string) {
    if |job| <= FIELD_CLIP then JobHead(job) <= text
    else JobHead(job[..FIELD_CLIP]) < text && !PlainChar(text[|JobHead(job[..FIELD_CLIP])|])
  }

  /** `job` is the first kept key, so the rendering of a parsed result opens with it. */
  ghost predicate RendersJobFirst(c: Codec) {
    forall s, data :: c.parse(s) == Object(data) && HasPlainJob(data) ==> OpensWith(JobOf(data), c.dumps(Kept(data)))
  }

  function JobOf(data: map<string, Value>): string
    requires "job" in data && data["job"].Str?
  {
    data["job"].text
  }

  function Digests(c: Codec, name: string, output: string, n: nat): string {
    if n == 0 then output else Digest(c, name, Digests(c, name, output, n - 1)).0
  }

  /** A text that opens with the job id and will keep doing so. */
  ghost predicate Carries(c: Codec, name: string, job: string, text: string) {
    && JobHead(job) <= text
    && (|text| <= SMALL || Digest(c, name, text).0 == text
        || (c.parse(text) == NotJson && |JobHead(job)| <= FIELD_CLIP))
  }

  /** A large result that is an object with a plain job id. */
  ghost predicate NamesJob(c: Codec, output: string, data: map<string, Value>, job: string) {
    && |output| > SMALL && c.parse(output) == Object(data)
    && "job" in data && data["job"] == Str(job) && Plain(job)
  }

  /** When the id outlives every digest: it is not clipped, and either no field was dropped, or
      the digest is small, or the id lies within the head that a large text keeps. */
  predicate JobFits(c: Codec, name: string, output: string, data: map<string, Value>, job: string) {
    && |job| <= FIELD_CLIP
    && (data.Keys - Kept(data).Keys == {} || |Digest(c, name, output).0| <= SMALL || |JobHead(job)| <= FIELD_CLIP)
  }

  lemma HeadOnlyKeepsPrefix(p: string, text: string)
    requires p <= text && |p| <= FIELD_CLIP && |text| > SMALL
    ensures p <= HeadOnly(text)
  {
    assert p <= text[..FIELD_CLIP];
  }

  /** The head of a large text keeps a leading job id exactly when the id fits the clip. */
  lemma LongJobIsCut(text: string, job: string)
    requires Plain(job) && JobHead(job) <= text && |text| > SMALL
    ensures JobHead(job) <= HeadOnly(text) <==> |JobHead(job)| <= FIELD_CLIP
  {
    if |JobHead(job)| <= FIELD_CLIP {
      HeadOnlyKeepsPrefix(JobHead(job), text);
    } else {
      assert HeadOnly(text)[FIELD_CLIP] == '\U{2026}';
      assert JobHead(job)[FIELD_CLIP] == job[FIELD_CLIP - 9];
    }
  }

  /** The first digest of a result that names a job. */
  lemma FirstDigest(c: Codec, name: string, output: string, data: map<string, Value>, job: string)
    requires SoundCodec(c) && RendersJobFirst(c) && NamesJob(c, output, data, job)
    ensures var d := Digest(c, name, output).0;
      && (JobHead(job) <= d <==> |job| <= FIELD_CLIP)
      && (data.Keys - Kept(data).Keys == {} ==> Digest(c, name, d).0 == d)
      && (data.Keys - Kept(data).Keys != {} ==> c.parse(d) == NotJson)
  {
    hide EvictedNote, SoundCodec, Kept, RendersJobFirst, HeadOnly;
    KeptTwice(data);
    ObjectDigestSettles(c, name, output, data);
    RenderedJob(c, output, data, job);
    var text, d := c.dumps(Kept(data)), Digest(c, name, output).0;
    assert text <= d;
    if |job| > FIELD_CLIP {
      var cut := |JobHead(job[..FIELD_CLIP])|;
      assert d[cut] == text[cut];
      assert JobHead(job)[cut] == job[FIELD_CLIP];
    }
  }

  lemma RenderedJob(c: Codec, output: string, data: map<string, Value>, job: string)
    requires RendersJobFirst(c) && NamesJob(c, output, data, job)
    ensures OpensWith(job, c.dumps(Kept(data)))
  {
    hide Kept;
  }

  lemma StillCarries(c: Codec, name: string, job: string, text: string)
    requires SoundCodec(c) && Carries(c, name, job, text)
    ensures Carries(c, name, job, Digest(c, name, text).0)
  {
    hide HeadOnly, SoundCodec, Kept;
    if |text| > SMALL && Digest(c, name, text).0 != text {
      HeadOnlyKeepsPrefix(JobHead(job), text);
      HeadOnlyIsNotJson(c, text);
    }
  }

  lemma {:induction false} JobSurvives(
    c: Codec, name: string, output: string, data: map<string, Value>, job: string, n: nat)
    requires SoundCodec(c) && RendersJobFirst(c) && NamesJob(c, output, data, job)
    requires JobFits(c, name, output, data, job) && n >= 1
    ensures Carries(c, name, job, Digests(c, name, output, n))
  {
    hide HeadOnly, SoundCodec, RendersJobFirst, Kept, Digest;
    if n == 1 {
      TwoDigests(c, name, output);
      FirstDigest(c, name, output, data, job);
    } else {
      JobSurvives(c, name, output, data, job, n - 1);
      StillCarries(c, name, job, Digests(c, name, output, n - 1));
    }
  }

  /** The condition is exact: otherwise the id is gone after the second digest. */
  lemma JobSurvivesExactlyWhen(c: Codec, name: string, output: string, data: map<string, Value>, job: string)
    requires SoundCodec(c) && RendersJobFirst(c) && NamesJob(c, output, data, job)
    ensures (forall n: nat :: n >= 1 ==> JobHead(job) <= Digests(c, name, output, n)) <==>
      JobFits(c, name, output, data, job)
  {
    hide HeadOnly, SoundCodec, RendersJobFirst, Kept;
    if JobFits(c, name, output, data, job) {
      forall n: nat | n >= 1 ensures JobHead(job) <= Digests(c, name, output, n) {
        JobSurvives(c, name, output, data, job, n);
      }
    } else {
      FirstDigest(c, name, output, data, job);
      var one, two: nat := 1, 2;
      TwoDigests(c, name, output);
      assert JobHead(job) <= Digests(c, name, output, one) <==> |job| <= FIELD_CLIP;
      if |job| <= FIELD_CLIP {
        var d := Digest(c, name, output).0;
        assert Digest(c, name, d).0 == HeadOnly(d);
        LongJobIsCut(d, job);
        assert !(JobHead(job) <= Digests(c, name, output, two));
      }
    }
  }

  lemma TwoDigests(c: Codec, name: string, output: string)
    ensures Digests(c, name, output, 1) == Digest(c, name, output).0
    ensures Digests(c, name, output, 2) == Digest(c, name, Digest(c, name, output).0).0
  {
    hide Digest;
    assert Digests(c, name, output, 0) == output;
  }

  // ---- a codec that meets the assumptions, and a job id that is lost -----------------------------

  const JOB_TAIL := "\"}"

  /** An object with the one field `job`, whose text holds no quote. */
  predicate OnlyJob(s: string) {
    && |s| >= |JobHead("")| + |JOB_TAIL| && JobHead("") <= s && s[|s| - |JOB_TAIL|..] == JOB_TAIL
    && '"' !in s[|JobHead("")|..|s| - |JOB_TAIL|]
  }

  function ParseJob(s: string): Parsed {
    if OnlyJob(s) then Object(map["job" := Str(s[|JobHead("")|..|s| - |JOB_TAIL|])]) else NotJson
  }

  function DumpJob(m: map<string, Value>): string {
    if "job" in m && m["job"].Str? then JobHead(m["job"].text) + JOB_TAIL else "{}"
  }

  /** A codec for results that hold nothing but a job id. */
  function JobCodec(): Codec {
    Codec(ParseJob, DumpJob, _ => [], _ => false, _ => "")
  }

  lemma ParseJobText(job: string)
    requires '"' !in job
    ensures ParseJob(JobHead(job) + JOB_TAIL) == Object(map["job" := Str(job)])
    ensures forall x :: ParseJob(JobHead(job) + JOB_TAIL + " [" + x) == NotJson
  {
    var s := JobHead(job) + JOB_TAIL;
    assert s[|JobHead("")|..|s| - |JOB_TAIL|] == job;
    forall x ensures ParseJob(s + " [" + x) == NotJson {
      var t := s + " [" + x;
      assert t[|JobHead(job)|] == '"';
      if OnlyJob(t) {
        assert t[|JobHead("")|..|t| - |JOB_TAIL|][|job|] == '"';
      }
    }
  }

  lemma ParsedJob(s: string, data: map<string, Value>)
    requires ParseJob(s) == Object(data)
    ensures data.Keys == {"job"} && data["job"].Str? && '"' !in data["job"].text
    ensures var job := data["job"].text;
      Clipped(data["job"]).Str? && '"' !in Clipped(data["job"]).text && Kept(data) == map["job" := Clipped(Str(job))]
  {
    var job := data["job"].text;
    assert KEEP_KEYS[0] == "job";
    assert forall ch :: ch in job[..if |job| < FIELD_CLIP then |job| else FIELD_CLIP] ==> ch in job;
  }

  /** The assumptions on the JSON library hold together, of a codec that does parse objects. */
  lemma JobCodecIsSound()
    ensures SoundCodec(JobCodec()) && RendersJobFirst(JobCodec())
  {
    var c := JobCodec();
    hide Kept, Clipped, OnlyJob;
    forall s, data | c.parse(s) == Object(data) ensures c.parse(c.dumps(Kept(data))) == Object(Kept(data)) {
      ParsedJob(s, data);
      ParseJobText(Clipped(data["job"]).text);
    }
    forall s, data, x | c.parse(s) == Object(data) ensures c.parse(c.dumps(Kept(data)) + " [" + x) == NotJson {
      ParsedJob(s, data);
      ParseJobText(Clipped(data["job"]).text);
    }
    forall x ensures c.parse(x + HEAD_SUFFIX) == NotJson && c.parse(x + LIST_SUFFIX) == NotJson {
      EndsOtherwise(x, HEAD_SUFFIX);
      EndsOtherwise(x, LIST_SUFFIX);
    }
    forall s, data | c.parse(s) == Object(data) && HasPlainJob(data)
      ensures OpensWith(JobOf(data), c.dumps(Kept(data)))
    {
      ParsedJob(s, data);
      ClippedJob(JobOf(data));
    }
  }

  lemma EndsOtherwise(x: string, suffix: string)
    requires |suffix| >= 2 && suffix[|suffix| - 1] == ']'
    ensures ParseJob(x + suffix) == NotJson
  {
    var s := x + suffix;
    assert s[|s| - 1] == ']';
    assert |s| >= |JOB_TAIL| ==> s[|s| - |JOB_TAIL|..][1] == ']';
  }

  lemma ClippedJob(job: string)
    ensures Clipped(Str(job)).Str?
    ensures |job| <= FIELD_CLIP ==> Clipped(Str(job)) == Str(job)
    ensures |job| > FIELD_CLIP ==>
      var head := JobHead(job[..FIELD_CLIP]);
      head < JobHead(Clipped(Str(job)).text) && JobHead(Clipped(Str(job)).text)[|head|] == '\U{2026}'
  {
    if |job| > FIELD_CLIP {
      var head := JobHead(job[..FIELD_CLIP]);
      assert JobHead(Clipped(Str(job)).text) == head + "\U{2026}";
    }
  }

  /** An input for which the id is lost: a job id of five hundred characters. */
  lemma LongJobIsLost() returns (c: Codec, output: string, data: map<string, Value>, job: string)
    ensures SoundCodec(c) && RendersJobFirst(c) && NamesJob(c, output, data, job)
    ensures !JobFits(c, "sim.run", output, data, job)
    ensures !(JobHead(job) <= Digest(c, "sim.run", output).0)
  {
    hide SoundCodec, RendersJobFirst, Digest, Kept, OnlyJob, ParseJob, DumpJob;
    c := JobCodec();
    JobCodecIsSound();
    job := seq(500, _ => 'a');
    output := JobHead(job) + JOB_TAIL;
    data := map["job" := Str(job)];
    ParseJobText(job);
    FirstDigest(c, "sim.run", output, data, job);
  }

  // ---- pinning ------------------------------------------------------------------------------

  /** The run of characters before the next quote. */
  function Unquoted(s: string): (r: string)
    ensures r <= s && '"' !in r && (|r| < |s| ==> s[|r|] == '"')
  {
    if s == [] || s[0] == '"' then "" else [s[0]] + Unquoted(s[1..])
  }

  const GOLDEN_DIR := "work/tb/verilator/"

  const PATH_KEY := "\"path\": \""

  /** The first `"path": "..."` value in a text, or nothing. */
  function FindPath(s: string): string {
    if s == [] then ""
    else if StartsWith(s, PATH_KEY) && 0 < |Unquoted(s[|PATH_KEY|..])| < |s| - |PATH_KEY| then Unquoted(s[|PATH_KEY|..])
    else FindPath(s[1..])
  }

  function BaseName(p: string): string {
    if '/' in p then BaseName(p[1..]) else p
  }

  /** Reference material: library results, and reads of fetched files or golden models. */
  predicate Pinned(a: Answer, fetched: set<string>)
    requires a.Answer?
  {
    if StartsWith(a.name, "lib.") then true
    else if a.name == "fs.read" then
      var path := FindPath(a.output);
      || path in fetched
      || (StartsWith(path, GOLDEN_DIR)
          && (StartsWith(BaseName(path), "ref_") || BaseName(path) == "tb_base.hpp"))
    else false
  }

  /** A non-empty path value stands at `i`. */
  ghost predicate PathAt(s: string, i: nat, path: string) {
    i <= |s| && path != "" && '"' !in path && PATH_KEY + path + "\"" <= s[i..]
  }

  ghost predicate NoPathBefore(s: string, n: nat) {
    forall i, path :: 0 <= i < n ==> !PathAt(s, i, path)
  }

  /** `path` is the first path value in the text. */
  ghost predicate FirstPath(s: string, path: string) {
    exists i: nat :: PathAt(s, i, path) && NoPathBefore(s, i)
  }

  /** A golden model of the native test bench. */
  ghost predicate Golden(path: string) {
    && GOLDEN_DIR <= path
    && exists dir, base :: path == dir + "/" + base && '/' !in base && ("ref_" <= base || base == "tb_base.hpp")
  }

  /** Reference material, by what its text says. */
  ghost predicate Reference(a: Answer, fetched: set<string>)
    requires a.Answer?
  {
    || "lib." <= a.name
    || (a.name == "fs.read" &&
        if exists path :: FirstPath(a.output, path)
        then exists path :: FirstPath(a.output, path) && (path in fetched || Golden(path))
        else "" in fetched)
  }

  lemma PathAtHead(s: string, path: string)
    ensures PathAt(s, 0, path) <==>
      && PATH_KEY <= s && path == Unquoted(s[|PATH_KEY|..]) && path != "" && |path| < |s| - |PATH_KEY|
  {
    if PATH_KEY <= s {
      var rest := s[|PATH_KEY|..];
      UnquotedIsThe(rest, path);
      assert s == PATH_KEY + rest;
      assert PathAt(s, 0, path) <==> path != "" && '"' !in path && path + "\"" <= rest by {
        var n := |PATH_KEY|;
        assert s[0..] == s && PATH_KEY + path + "\"" == PATH_KEY + (path + "\"");
        if PATH_KEY + (path + "\"") <= s { assert s[n..][..|path| + 1] == path + "\""; }
      }
    }
  }

  /** A quote-free text before a quote is the run read up to that quote. */
  lemma {:induction false} UnquotedIsThe(s: string, path: string)
    ensures '"' !in path && path + "\"" <= s <==> path == Unquoted(s) && |path| < |s|
  {
    if s != [] && s[0] != '"' {
      if path != "" && path[0] == s[0] {
        UnquotedIsThe(s[1..], path[1..]);
        assert path == [path[0]] + path[1..] && s == [s[0]] + s[1..];
        assert path + "\"" == [path[0]] + (path[1..] + "\"");
      }
    }
  }

  lemma PathAtLater(s: string, i: nat, path: string)
    requires s != []
    ensures PathAt(s, i + 1, path) <==> PathAt(s[1..], i, path)
  {
    if i < |s| { assert s[i + 1..] == s[1..][i..]; }
  }

  lemma FirstPathLater(s: string, path: string)
    requires s != [] && forall q :: !PathAt(s, 0, q)
    ensures FirstPath(s, path) <==> FirstPath(s[1..], path)
  {
    hide PathAt;
    forall i: nat, q ensures PathAt(s, i + 1, q) <==> PathAt(s[1..], i, q) { PathAtLater(s, i, q); }
    if i: nat :| PathAt(s, i, path) && NoPathBefore(s, i) {
      assert NoPathBefore(s[1..], i - 1) by {
        forall j: nat, q | j < i - 1 ensures !PathAt(s[1..], j, q) { assert !PathAt(s, j + 1, q); }
      }
    }
    if i: nat :| PathAt(s[1..], i, path) && NoPathBefore(s[1..], i) {
      assert PathAt(s, i + 1, path);
      forall j: nat, q | j < i + 1 ensures !PathAt(s, j, q) {
        if j > 0 { assert !PathAt(s[1..], j - 1, q); }
      }
    }
  }

  /** What is read is the first path value there is; nothing is read only when there is none. */
  lemma {:induction false} FindPathMeans(s: string)
    ensures FindPath(s) != "" ==> FirstPath(s, FindPath(s))
    ensures forall path :: FirstPath(s, path) ==> path == FindPath(s) && path != ""
  {
    hide FirstPath;
    if s == [] {
      NoPathInNothing();
    } else {
      forall q ensures PathAt(s, 0, q) <==>
        PATH_KEY <= s && q == Unquoted(s[|PATH_KEY|..]) && q != "" && |q| < |s| - |PATH_KEY|
      {
        PathAtHead(s, q);
      }
      if q :| PathAt(s, 0, q) {
        PathAtOnce(s, q);
      } else {
        FindPathMeans(s[1..]);
        forall path ensures FirstPath(s, path) <==> FirstPath(s[1..], path) { FirstPathLater(s, path); }
      }
    }
  }

  lemma NoPathInNothing()
    ensures forall path :: !FirstPath("", path)
  {
  }

  lemma PathAtOnce(s: string, q: string)
    requires PathAt(s, 0, q)
    ensures FirstPath(s, q) && forall path :: FirstPath(s, path) ==> PathAt(s, 0, path)
  {
    hide PathAt;
    assert NoPathBefore(s, 0);
    forall path | FirstPath(s, path) ensures PathAt(s, 0, path) {
      var i: nat :| PathAt(s, i, path) && NoPathBefore(s, i);
    }
  }

  /** The base name is what follows the last slash. */
  lemma {:induction false} BaseNameIs(dir: string, base: string)
    requires '/' !in base
    ensures BaseName(dir + "/" + base) == base
  {
    var path := dir + "/" + base;
    assert path[|dir|] == '/';
    if dir == "" {
      assert path[1..] == base;
    } else {
      assert path[1..] == dir[1..] + "/" + base;
      BaseNameIs(dir[1..], base);
    }
  }

  lemma {:induction false} BaseNameSplits(path: string) returns (dir: string)
    requires '/' in path
    ensures path == dir + "/" + BaseName(path) && '/' !in BaseName(path)
  {
    var rest := path[1..];
    assert path == [path[0]] + rest;
    if '/' in rest {
      var inner := BaseNameSplits(rest);
      dir := [path[0]] + inner;
    } else {
      dir := "";
    }
  }

  lemma GoldenMeans(path: string)
    ensures Golden(path) <==>
      GOLDEN_DIR <= path && ("ref_" <= BaseName(path) || BaseName(path) == "tb_base.hpp")
  {
    if dir, base :| path == dir + "/" + base && '/' !in base && ("ref_" <= base || base == "tb_base.hpp") {
      BaseNameIs(dir, base);
    }
    if GOLDEN_DIR <= path {
      assert path[4] == '/';
      var dir := BaseNameSplits(path);
    }
  }

  /** The code's reading of an answer finds exactly the reference material. */
  lemma PinnedMeans(a: Answer, fetched: set<string>)
    requires a.Answer?
    ensures Pinned(a, fetched) <==> Reference(a, fetched)
  {
    hide FirstPath, FindPath, BaseName, Golden;
    FindPathMeans(a.output);
    var path := FindPath(a.output);
    GoldenMeans(path);
    NothingGolden();
  }

  lemma NothingGolden()
    ensures !StartsWith("", GOLDEN_DIR)
  {
  }

  // ---- sizes -----------------------------------------------------------------------------------

  function OutputChars(ans: seq<Answer>): nat {
    if ans == [] then 0 else (if ans[0].Answer? then |ans[0].output| else 0) + OutputChars(ans[1..])
  }

  function InputChars(cs: seq<Call>): nat {
    if cs == [] then 0 else |cs[0].input| + InputChars(cs[1..])
  }

  function Chars(m: Turn): nat {
    (match m.content case Text(s) => |s| case Answers(ans) => OutputChars(ans)) + InputChars(m.calls)
  }

  function Size(t: seq<Turn>): nat {
    if t == [] then 0 else Size(t[..|t| - 1]) + Chars(t[|t| - 1])
  }

  lemma {:induction false} OutputCharsSnoc(ans: seq<Answer>, a: Answer)
    ensures OutputChars(ans + [a]) == OutputChars(ans) + (if a.Answer? then |a.output| else 0)
  {
    if ans == [] {
      assert [a][1..] == [];
    } else {
      assert (ans + [a])[1..] == ans[1..] + [a];
      OutputCharsSnoc(ans[1..], a);
    }
  }

  lemma {:induction false} InputCharsSnoc(cs: seq<Call>, c: Call)
    ensures InputChars(cs + [c]) == InputChars(cs) + |c.input|
  {
    if cs == [] {
      assert [c][1..] == [];
    } else {
      assert (cs + [c])[1..] == cs[1..] + [c];
      InputCharsSnoc(cs[1..], c);
    }
  }

  /** What the size counts: each turn's text or outputs, and the input of each call. */
  lemma SizeAccounts(t: seq<Turn>, m: Turn, a: Answer, c: Call)
    ensures Size([]) == 0 && Size(t + [m]) == Size(t) + Size([m])
    ensures m.content.Text? && m.calls == [] ==> Size([m]) == |m.content.text|
    ensures Size([m.(calls := m.calls + [c])]) == Size([m]) + |c.input|
    ensures m.content.Answers? ==>
      Size([m.(content := Answers(m.content.answers + [a]))]) == Size([m]) + (if a.Answer? then |a.output| else 0)
    ensures m.content == Answers([]) && m.calls == [] ==> Size([m]) == 0
  {
    assert (t + [m])[..|t|] == t;
    forall n: Turn ensures Size([n]) == Chars(n) { assert [n][..0] == []; }
    InputCharsSnoc(m.calls, c);
    if m.content.Answers? { OutputCharsSnoc(m.content.answers, a); }
  }

  method TranscriptSize(t: seq<Turn>) returns (chars: nat)
    ensures chars == Size(t)
  {
    chars := 0;
    for i := 0 to |t|
      invariant chars == Size(t[..i])
    {
      assert t[..i + 1][..i] == t[..i];
      chars := chars + Chars(t[i]);
    }
    assert t[..|t|] == t;
  }

  // ---- one sweep -----------------------------------------------------------------------------------

  /** The parameters of one compaction. */
  datatype Policy = Policy(codec: Codec, budget: nat, keepRecent: nat, fetched: set<string>)

  ghost function EvictAnswer(p: Policy, skipPinned: bool, a: Answer): (r: Answer)
    ensures r.Answer? == a.Answer? && (a.Answer? ==> r.id == a.id && r.name == a.name)
  {
    if a.Foreign? || (skipPinned && Reference(a, p.fetched)) then a
    else a.(output := Digest(p.codec, a.name, a.output).0)
  }

  ghost function Evict(p: Policy, skipPinned: bool, m: Turn): Turn {
    if m.role.Tool? && m.content.Answers? then
      var ans := m.content.answers;
      m.(content := Answers(seq(|ans|, k requires 0 <= k < |ans| => EvictAnswer(p, skipPinned, ans[k]))))
    else m
  }

  /** How many answers of a turn a sweep changes. */
  ghost function ChangedIn(p: Policy, skipPinned: bool, ans: seq<Answer>): nat {
    if ans == [] then 0
    else ChangedIn(p, skipPinned, ans[..|ans| - 1]) +
         var a := ans[|ans| - 1];
         if a.Answer? && !(skipPinned && Reference(a, p.fetched)) && Digest(p.codec, a.name, a.output).1 then 1 else 0
  }

  /** The transcript with its first `k` turns swept. */
  ghost function SweptTo(p: Policy, skipPinned: bool, t: seq<Turn>, k: nat): (r: seq<Turn>)
    requires k <= |t|
    ensures |r| == |t| && forall i :: 0 <= i < |t| ==> r[i] == if i < k then Evict(p, skipPinned, t[i]) else t[i]
  {
    seq(|t|, i requires 0 <= i < |t| => if i < k then Evict(p, skipPinned, t[i]) else t[i])
  }

  /** The first point, from turn `k` on, at which the swept transcript fits; else the horizon. */
  ghost function StopsAt(p: Policy, skipPinned: bool, t: seq<Turn>, k: nat, horizon: nat): (r: nat)
    requires k <= horizon <= |t|
    ensures k <= r <= horizon
    ensures r < horizon ==> Size(SweptTo(p, skipPinned, t, r)) <= p.budget
    ensures forall j :: k <= j < r ==> Size(SweptTo(p, skipPinned, t, j)) > p.budget
    decreases horizon - k
  {
    if k == horizon || Size(SweptTo(p, skipPinned, t, k)) <= p.budget then k
    else StopsAt(p, skipPinned, t, k + 1, horizon)
  }

  /** Answers changed in the first `k` turns. */
  ghost function ChangedTo(p: Policy, skipPinned: bool, t: seq<Turn>, k: nat): nat
    requires k <= |t|
  {
    if k == 0 then 0
    else
      var m := t[k - 1];
      ChangedTo(p, skipPinned, t, k - 1) +
      if m.role.Tool? && m.content.Answers? then ChangedIn(p, skipPinned, m.content.answers) else 0
  }

  method EvictTurn(p: Policy, skipPinned: bool, m: Turn) returns (m': Turn, changed: nat)
    requires m.role.Tool? && m.content.Answers?
    ensures m' == Evict(p, skipPinned, m)
    ensures changed == ChangedIn(p, skipPinned, m.content.answers)
  {
    hide Reference, Pinned, Digest;
    var ans := m.content.answers;
    var results: seq<Answer> := [];
    changed := 0;
    for i := 0 to |ans|
      invariant |results| == i && forall k :: 0 <= k < i ==> results[k] == EvictAnswer(p, skipPinned, ans[k])
      invariant changed == ChangedIn(p, skipPinned, ans[..i])
    {
      assert ans[..i + 1][..i] == ans[..i];
      if ans[i].Answer? { PinnedMeans(ans[i], p.fetched); }
      if ans[i].Foreign? || (skipPinned && Pinned(ans[i], p.fetched)) {
        results := results + [ans[i]];
      } else {
        var (text, isChanged) := Digest(p.codec, ans[i].name, ans[i].output);
        if isChanged { changed := changed + 1; }
        results := results + [ans[i].(output := text)];
      }
    }
    assert ans[..|ans|] == ans;
    assert results == Evict(p, skipPinned, m).content.answers;
    m' := m.(content := Answers(results));
  }

  /** One pass over the old turns, stopping at the first point where the transcript fits. */
  method Sweep(p: Policy, skipPinned: bool, t: seq<Turn>, horizon: nat)
    returns (out: seq<Turn>, fits: bool, evicted: nat)
    requires horizon <= |t| && Size(t) > p.budget
    ensures var stop := StopsAt(p, skipPinned, t, 0, horizon);
      && out == SweptTo(p, skipPinned, t, stop)
      && evicted == ChangedTo(p, skipPinned, t, stop)
    ensures fits <==> Size(out) <= p.budget
    ensures evicted == 0 ==> out == t
  {
    hide *;
    out, evicted := t, 0;
    SweptNothing(p, skipPinned, t);
    for i := 0 to horizon
      invariant out == SweptTo(p, skipPinned, t, i)
      invariant forall j :: 0 <= j <= i ==> Size(SweptTo(p, skipPinned, t, j)) > p.budget
      invariant evicted == ChangedTo(p, skipPinned, t, i)
    {
      SweptStep(p, skipPinned, t, i);
      var msg := out[i];
      if !(msg.role.Tool? && msg.content.Answers?) {
        EvictLeaves(p, skipPinned, msg);
        assert out[i := msg] == out;
        continue;
      }
      var swept, changed := EvictTurn(p, skipPinned, msg);
      out := out[i := swept];
      evicted := evicted + changed;
      var chars := TranscriptSize(out);
      if chars <= p.budget {
        StopsHere(p, skipPinned, t, i + 1, horizon);
        NothingChanged(p, skipPinned, t, i + 1);
        return out, true, evicted;
      }
    }
    StopsHere(p, skipPinned, t, horizon, horizon);
    NothingChanged(p, skipPinned, t, horizon);
    fits := false;
  }

  lemma SweptNothing(p: Policy, skipPinned: bool, t: seq<Turn>)
    ensures SweptTo(p, skipPinned, t, 0) == t && ChangedTo(p, skipPinned, t, 0) == 0
  {
  }

  lemma SweptStep(p: Policy, skipPinned: bool, t: seq<Turn>, i: nat)
    requires i < |t|
    ensures SweptTo(p, skipPinned, t, i)[i] == t[i]
    ensures SweptTo(p, skipPinned, t, i + 1) == SweptTo(p, skipPinned, t, i)[i := Evict(p, skipPinned, t[i])]
    ensures ChangedTo(p, skipPinned, t, i + 1) == ChangedTo(p, skipPinned, t, i) +
      if t[i].role.Tool? && t[i].content.Answers? then ChangedIn(p, skipPinned, t[i].content.answers) else 0
  {
    hide Evict, ChangedIn;
  }

  lemma StopsHere(p: Policy, skipPinned: bool, t: seq<Turn>, k: nat, horizon: nat)
    requires k <= horizon <= |t|
    requires forall j :: 0 <= j < k ==> Size(SweptTo(p, skipPinned, t, j)) > p.budget
    requires k == horizon || Size(SweptTo(p, skipPinned, t, k)) <= p.budget
    ensures StopsAt(p, skipPinned, t, 0, horizon) == k
  {
    hide Size, SweptTo, StopsAt;
  }

  lemma EvictLeaves(p: Policy, skipPinned: bool, m: Turn)
    requires !(m.role.Tool? && m.content.Answers?)
    ensures Evict(p, skipPinned, m) == m
  {
  }

  // ---- compaction ----------------------------------------------------------------------------------

  ghost function Horizon(p: Policy, t: seq<Turn>): (h: nat)
    ensures h <= |t|
  {
    if |t| <= p.keepRecent then 0 else |t| - p.keepRecent
  }

  ghost function FirstPass(p: Policy, t: seq<Turn>): seq<Turn> {
    SweptTo(p, true, t, StopsAt(p, true, t, 0, Horizon(p, t)))
  }

  ghost function Compacted(p: Policy, t: seq<Turn>): seq<Turn> {
    if Size(t) <= p.budget then t
    else
      var out := FirstPass(p, t);
      if Size(out) <= p.budget then out
      else SweptTo(p, false, out, StopsAt(p, false, out, 0, Horizon(p, t)))
  }

  /** The results that the passes of a compaction change. */
  ghost function Evictions(p: Policy, t: seq<Turn>): nat {
    if Size(t) <= p.budget then 0
    else
      var h, out := Horizon(p, t), FirstPass(p, t);
      ChangedTo(p, true, t, StopsAt(p, true, t, 0, h)) +
      if Size(out) <= p.budget then 0 else ChangedTo(p, false, out, StopsAt(p, false, out, 0, h))
  }

  datatype Report = Report(compacted: bool, before: nat, after: nat, evicted: nat, underBudget: bool)

  method Compact(p: Policy, transcript: seq<Turn>) returns (out: seq<Turn>, report: Report)
    ensures out == Compacted(p, transcript)
    ensures report.before == Size(transcript) && report.after == Size(out)
    ensures report.underBudget <==> Size(out) <= p.budget
    ensures report.evicted == Evictions(p, transcript) && (report.compacted <==> report.evicted > 0)
    ensures !report.compacted ==> out == transcript
  {
    hide Size, SweptTo, StopsAt, ChangedTo, Evict;
    var before := TranscriptSize(transcript);
    if before <= p.budget {
      return transcript, Report(false, before, before, 0, true);
    }
    var horizon := if |transcript| <= p.keepRecent then 0 else |transcript| - p.keepRecent;
    var fits, evicted;
    out, fits, evicted := Sweep(p, true, transcript, horizon);
    if !fits {
      var more;
      out, fits, more := Sweep(p, false, out, horizon);
      evicted := evicted + more;
    }
    var after := TranscriptSize(out);
    report := Report(evicted > 0, before, after, evicted, after <= p.budget);
  }

  /** A sweep that counts no change made none. */
  lemma NothingChanged(p: Policy, skipPinned: bool, t: seq<Turn>, k: nat)
    requires k <= |t|
    ensures ChangedTo(p, skipPinned, t, k) == 0 ==> SweptTo(p, skipPinned, t, k) == t
  {
    hide Evict, SweptTo, ChangedTo;
    if ChangedTo(p, skipPinned, t, k) == 0 {
      NoTurnChanged(p, skipPinned, t, k);
    }
  }

  lemma {:induction false} NoTurnChanged(p: Policy, skipPinned: bool, t: seq<Turn>, k: nat)
    requires k <= |t| && ChangedTo(p, skipPinned, t, k) == 0
    ensures forall i :: 0 <= i < k ==> Evict(p, skipPinned, t[i]) == t[i]
  {
    hide Evict, ChangedIn, EvictAnswer;
    if k > 0 {
      NoTurnChanged(p, skipPinned, t, k - 1);
      TurnUnchanged(p, skipPinned, t[k - 1]);
    }
  }

  lemma TurnUnchanged(p: Policy, skipPinned: bool, m: Turn)
    requires m.role.Tool? && m.content.Answers? ==> ChangedIn(p, skipPinned, m.content.answers) == 0
    ensures Evict(p, skipPinned, m) == m
  {
    hide ChangedIn, EvictAnswer;
    if m.role.Tool? && m.content.Answers? {
      NoAnswerChanged(p, skipPinned, m.content.answers);
      assert Evict(p, skipPinned, m).content.answers == m.content.answers;
    }
  }

  lemma {:induction false} NoAnswerChanged(p: Policy, skipPinned: bool, ans: seq<Answer>)
    requires ChangedIn(p, skipPinned, ans) == 0
    ensures forall k :: 0 <= k < |ans| ==> EvictAnswer(p, skipPinned, ans[k]) == ans[k]
  {
    hide Reference, Digest;
    if ans != [] {
      NoAnswerChanged(p, skipPinned, ans[..|ans| - 1]);
      forall k | 0 <= k < |ans| ensures EvictAnswer(p, skipPinned, ans[k]) == ans[k] {
        if k < |ans| - 1 { assert ans[..|ans| - 1][k] == ans[k]; }
      }
    }
  }

  // ---- what compaction leaves alone ----------------------------------------------------------------

  /** Same shape: a turn may differ only in the outputs of its tool answers. */
  ghost predicate SameShape(m: Turn, n: Turn) {
    && n.role == m.role && n.guard == m.guard && n.calls == m.calls
    && (!(m.role.Tool? && m.content.Answers?) ==> n == m)
    && (m.role.Tool? && m.content.Answers? ==>
        n.content.Answers? && |n.content.answers| == |m.content.answers| &&
        forall k :: 0 <= k < |m.content.answers| ==> SameAnswer(m.content.answers[k], n.content.answers[k]))
  }

  ghost predicate SameAnswer(a: Answer, b: Answer) {
    a.Answer? == b.Answer? && (a.Answer? ==> b.id == a.id && b.name == a.name)
  }

  ghost predicate SameShapes(t: seq<Turn>, u: seq<Turn>) {
    |u| == |t| && forall i :: 0 <= i < |t| ==> SameShape(t[i], u[i])
  }

  lemma SweepKeepsShape(p: Policy, skipPinned: bool, t: seq<Turn>, k: nat)
    requires k <= |t|
    ensures SameShapes(t, SweptTo(p, skipPinned, t, k))
  {
    hide Digest, Reference;
  }

  lemma SameShapesCompose(t: seq<Turn>, u: seq<Turn>, v: seq<Turn>)
    requires SameShapes(t, u) && SameShapes(u, v)
    ensures SameShapes(t, v)
  {
    forall i | 0 <= i < |t| ensures SameShape(t[i], v[i]) {
      assert SameShape(t[i], u[i]) && SameShape(u[i], v[i]);
    }
  }

  /** Compaction keeps every turn but for the outputs of old tool answers: roles, order,
      calls, ids and names stay, and so do the last `keepRecent` turns entirely. */
  lemma CompactionKeepsTheFrame(p: Policy, t: seq<Turn>)
    ensures SameShapes(t, Compacted(p, t))
    ensures forall i :: 0 <= i < |t| && |t| - p.keepRecent <= i ==> Compacted(p, t)[i] == t[i]
  {
    hide Digest, Reference, SameShape, Size, StopsAt, Evict;
    var out := FirstPass(p, t);
    SweepKeepsShape(p, true, t, StopsAt(p, true, t, 0, Horizon(p, t)));
    SweepKeepsShape(p, false, out, StopsAt(p, false, out, 0, Horizon(p, t)));
    if Size(t) > p.budget && Size(out) > p.budget {
      SameShapesCompose(t, out, Compacted(p, t));
    } else if Size(t) <= p.budget {
      forall i | 0 <= i < |t| ensures SameShape(t[i], t[i]) { SameShapeReflexive(t[i]); }
    }
  }

  lemma SameShapeReflexive(m: Turn)
    ensures SameShape(m, m)
  {
  }

  /** A legal transcript stays legal, and keeps its ledger turns. */
  lemma CompactionKeepsLegality(p: Policy, t: seq<Turn>, exact: bool)
    requires Legal(t, exact)
    ensures Legal(Compacted(p, t), exact) && LedgerCount(Compacted(p, t)) == LedgerCount(t)
  {
    hide Compacted;
    CompactionKeepsTheFrame(p, t);
    ShapeKeepsLegality(t, Compacted(p, t), exact);
    ShapeKeepsLedgers(t, Compacted(p, t));
  }

  lemma ShapeKeepsLegality(t: seq<Turn>, u: seq<Turn>, exact: bool)
    requires Legal(t, exact) && SameShapes(t, u)
    ensures Legal(u, exact)
  {
    forall i | 0 <= i < |u| && Asks(u[i]) ensures i + 1 < |u| && Responds(u[i], u[i + 1], exact) {
      assert SameShape(t[i], u[i]) && Asks(t[i]);
      assert SameShape(t[i + 1], u[i + 1]);
      assert Responds(t[i], t[i + 1], exact);
      if exact {
        var m, n := t[i + 1].content.answers, u[i + 1].content.answers;
        forall k | 0 <= k < |u[i].calls| ensures n[k].Answer? && n[k].id == u[i].calls[k].id {
          assert SameAnswer(m[k], n[k]);
        }
      }
    }
  }

  lemma {:induction false} ShapeKeepsLedgers(t: seq<Turn>, u: seq<Turn>)
    requires SameShapes(t, u)
    ensures LedgerCount(u) == LedgerCount(t)
  {
    if t != [] {
      assert SameShape(t[0], u[0]);
      forall i | 0 <= i < |t| - 1 ensures SameShape(t[1..][i], u[1..][i]) {
        assert SameShape(t[i + 1], u[i + 1]);
      }
      ShapeKeepsLedgers(t[1..], u[1..]);
    }
  }

  // ---- how little compaction evicts ----------------------------------------------------------------------

  /** A sweep stops at the first point where the transcript fits: it leaves every later turn
      untouched, and one turn less would not have been enough. */
  lemma SweepIsMinimal(p: Policy, skipPinned: bool, t: seq<Turn>, horizon: nat)
    requires horizon <= |t| && Size(t) > p.budget
    ensures var stop := StopsAt(p, skipPinned, t, 0, horizon);
      && (forall i :: stop <= i < |t| ==> SweptTo(p, skipPinned, t, stop)[i] == t[i])
      && (forall j :: 0 <= j < stop ==> Size(SweptTo(p, skipPinned, t, j)) > p.budget)
      && (Size(SweptTo(p, skipPinned, t, stop)) > p.budget ==> stop == horizon)
      && (stop > 0 || horizon == 0)
  {
    hide Digest, Reference, Evict, Size;
    assert SweptTo(p, skipPinned, t, 0) == t;
  }

  /** The output of answer `k` of turn `i`, where there is one. */
  function OutputAt(t: seq<Turn>, i: nat, k: nat): string {
    if i < |t| && t[i].role.Tool? && t[i].content.Answers?
       && k < |t[i].content.answers| && t[i].content.answers[k].Answer?
    then t[i].content.answers[k].output else ""
  }

  ghost predicate ReferenceAt(p: Policy, t: seq<Turn>, i: nat, k: nat) {
    && i < |t| && t[i].role.Tool? && t[i].content.Answers?
    && k < |t[i].content.answers| && t[i].content.answers[k].Answer?
    && Reference(t[i].content.answers[k], p.fetched)
  }

  lemma SweepSpares(p: Policy, t: seq<Turn>, stop: nat, i: nat, k: nat)
    requires stop <= |t| && ReferenceAt(p, t, i, k)
    ensures OutputAt(SweptTo(p, true, t, stop), i, k) == OutputAt(t, i, k)
  {
    hide Digest, Reference;
  }

  /** Every old result digested but for reference material. */
  ghost function OthersSwept(p: Policy, t: seq<Turn>): seq<Turn> {
    seq(|t|, i requires 0 <= i < |t| => if i < |t| - p.keepRecent then Evict(p, true, t[i]) else t[i])
  }

  /** Reference material is evicted last: it is left alone whenever digesting the other old
      results is enough. */
  lemma ReferenceGoesLast(p: Policy, t: seq<Turn>, i: nat, k: nat)
    requires ReferenceAt(p, t, i, k) && Size(OthersSwept(p, t)) <= p.budget
    ensures OutputAt(Compacted(p, t), i, k) == OutputAt(t, i, k)
  {
    hide Digest, ReferenceAt, OutputAt, Evict, Size, SweptTo;
    var h := Horizon(p, t);
    assert OthersSwept(p, t) == SweptTo(p, true, t, h);
    SweepSpares(p, t, StopsAt(p, true, t, 0, h), i, k);
  }

  lemma SweepDigests(p: Policy, skipPinned: bool, t: seq<Turn>, stop: nat, i: nat, k: nat)
    requires i < stop <= |t| && t[i].role.Tool? && t[i].content.Answers?
    requires k < |t[i].content.answers| && t[i].content.answers[k].Answer?
    requires !(skipPinned && ReferenceAt(p, t, i, k))
    ensures var name := t[i].content.answers[k].name;
      OutputAt(SweptTo(p, skipPinned, t, stop), i, k) == Digest(p.codec, name, OutputAt(t, i, k)).0
  {
    hide Digest, Reference;
  }

  /** Finishing over budget means that every old result was digested: a pinned one once, any
      other one twice. */
  lemma OverBudgetDigestedAll(p: Policy, t: seq<Turn>, i: nat, k: nat)
    requires Size(Compacted(p, t)) > p.budget
    requires i < |t| - p.keepRecent && t[i].role.Tool? && t[i].content.Answers?
    requires k < |t[i].content.answers| && t[i].content.answers[k].Answer?
    ensures var a := t[i].content.answers[k];
      var once := Digest(p.codec, a.name, a.output).0;
      OutputAt(Compacted(p, t), i, k) == if ReferenceAt(p, t, i, k) then once else Digest(p.codec, a.name, once).0
  {
    hide Digest, Reference, Size, Evict, SweptTo, SameShape, SameAnswer;
    var h := Horizon(p, t);
    var out := FirstPass(p, t);
    assert StopsAt(p, true, t, 0, h) == h && StopsAt(p, false, out, 0, h) == h;
    FirstPassAt(p, t, i, k);
    SweepDigests(p, false, out, h, i, k);
    if ReferenceAt(p, t, i, k) {
      SweepSpares(p, t, h, i, k);
    } else {
      SweepDigests(p, true, t, h, i, k);
    }
  }

  /** Any other old result that the first pass reaches, because digesting what comes before it
      does not make the transcript fit, is digested: once, and again if the first pass is not
      enough and the second reaches it too. */
  lemma OtherGoesFirst(p: Policy, t: seq<Turn>, i: nat, k: nat)
    requires i < |t| - p.keepRecent && t[i].role.Tool? && t[i].content.Answers?
    requires k < |t[i].content.answers| && t[i].content.answers[k].Answer? && !ReferenceAt(p, t, i, k)
    requires forall j :: 0 <= j <= i ==> Size(SweptTo(p, true, t, j)) > p.budget
    ensures var a := t[i].content.answers[k];
      var once := Digest(p.codec, a.name, a.output).0;
      || OutputAt(Compacted(p, t), i, k) == once
      || (Size(OthersSwept(p, t)) > p.budget && OutputAt(Compacted(p, t), i, k) == Digest(p.codec, a.name, once).0)
  {
    hide Digest, Reference, Size, Evict, SweptTo, SameShape, SameAnswer;
    var h := Horizon(p, t);
    var out := FirstPass(p, t);
    assert SweptTo(p, true, t, 0) == t && OthersSwept(p, t) == SweptTo(p, true, t, h);
    var stop := StopsAt(p, true, t, 0, h);
    assert i < stop;
    FirstPassAt(p, t, i, k);
    SweepDigests(p, true, t, stop, i, k);
    if Size(out) > p.budget {
      var last := StopsAt(p, false, out, 0, h);
      if i < last { SweepDigests(p, false, out, last, i, k); }
    }
  }

  lemma FirstPassAt(p: Policy, t: seq<Turn>, i: nat, k: nat)
    requires i < |t| && t[i].role.Tool? && t[i].content.Answers?
    requires k < |t[i].content.answers| && t[i].content.answers[k].Answer?
    ensures var out := FirstPass(p, t);
      && out[i].role.Tool? && out[i].content.Answers? && k < |out[i].content.answers|
      && out[i].content.answers[k].Answer? && out[i].content.answers[k].name == t[i].content.answers[k].name
  {
    hide Digest, Reference;
  }

  // ---- any number of compactions ---------------------------------------------------------------

  /** Answer `k` of turn `i` is this one. */
  ghost predicate AnswerAt(t: seq<Turn>, i: nat, k: nat, a: Answer) {
    && i < |t| && t[i].role.Tool? && t[i].content.Answers?
    && k < |t[i].content.answers| && t[i].content.answers[k] == a
  }

  /** What a run does to its transcript: compact it, append turns, remove the ledger turn. */
  datatype Round = Compaction(policy: Policy) | Append(turns: seq<Turn>) | Unledger

  ghost function Apply(t: seq<Turn>, r: Round): seq<Turn> {
    match r
    case Compaction(p) => Compacted(p, t)
    case Append(more) => t + more
    case Unledger => Strip(t)
  }

  ghost function After(t: seq<Turn>, rounds: seq<Round>): seq<Turn> {
    if rounds == [] then t else Apply(After(t, rounds[..|rounds| - 1]), rounds[|rounds| - 1])
  }

  ghost predicate Holds(t: seq<Turn>, a: Answer) {
    exists i, k :: AnswerAt(t, i, k, a)
  }

  lemma {:induction false} DigestsCompose(c: Codec, name: string, output: string, a: nat, b: nat)
    ensures Digests(c, name, Digests(c, name, output, a), b) == Digests(c, name, output, a + b)
  {
    hide Digest;
    if b > 0 { DigestsCompose(c, name, output, a, b - 1); }
  }

  lemma SweepDigestsOnce(p: Policy, skipPinned: bool, t: seq<Turn>, stop: nat, i: nat, k: nat, a: Answer)
    returns (n: nat)
    requires stop <= |t| && a.Answer? && AnswerAt(t, i, k, a)
    ensures AnswerAt(SweptTo(p, skipPinned, t, stop), i, k, a.(output := Digests(p.codec, a.name, a.output, n)))
  {
    hide Digest, Reference;
    n := if i < stop && !(skipPinned && Reference(a, p.fetched)) then 1 else 0;
    var swept := SweptTo(p, skipPinned, t, stop);
    assert swept[i] == if i < stop then Evict(p, skipPinned, t[i]) else t[i];
    TwoDigests(p.codec, a.name, a.output);
  }

  lemma CompactionDigests(p: Policy, t: seq<Turn>, i: nat, k: nat, a: Answer) returns (n: nat)
    requires a.Answer? && AnswerAt(t, i, k, a)
    ensures AnswerAt(Compacted(p, t), i, k, a.(output := Digests(p.codec, a.name, a.output, n)))
  {
    hide Digest, Reference, Size, SweptTo, StopsAt, AnswerAt, Digests;
    DigestedNever(p.codec, a);
    var h, out := Horizon(p, t), FirstPass(p, t);
    var first := SweepDigestsOnce(p, true, t, StopsAt(p, true, t, 0, h), i, k, a);
    var b := a.(output := Digests(p.codec, a.name, a.output, first));
    var second := SweepDigestsOnce(p, false, out, StopsAt(p, false, out, 0, h), i, k, b);
    DigestsCompose(p.codec, a.name, a.output, first, second);
    n := if Size(t) <= p.budget then 0 else if Size(out) <= p.budget then first else first + second;
  }

  lemma DigestedNever(c: Codec, a: Answer)
    requires a.Answer?
    ensures a.(output := Digests(c, a.name, a.output, 0)) == a
  {
  }

  lemma {:induction false} StripKeeps(t: seq<Turn>, i: nat, k: nat, a: Answer)
    requires AnswerAt(t, i, k, a)
    ensures Holds(Strip(t), a)
  {
    var m, rest := t[0], t[1..];
    if i == 0 {
      assert AnswerAt(Strip(t), 0, k, a);
    } else {
      assert AnswerAt(rest, i - 1, k, a);
      StripKeeps(rest, i - 1, k, a);
      var i': nat, k': nat :| AnswerAt(Strip(rest), i', k', a);
      assert IsLedger(m) ==> Strip(t) == Strip(rest);
      if !IsLedger(m) { assert AnswerAt(Strip(t), i' + 1, k', a); }
    }
  }

  lemma RoundDigests(c: Codec, t: seq<Turn>, r: Round, a: Answer) returns (n: nat)
    requires a.Answer? && Holds(t, a) && (r.Compaction? ==> r.policy.codec == c)
    ensures Holds(Apply(t, r), a.(output := Digests(c, a.name, a.output, n)))
  {
    hide Digests, Compacted, AnswerAt, Strip;
    DigestedNever(c, a);
    n := 0;
    var i: nat, k: nat :| AnswerAt(t, i, k, a);
    match r
    case Compaction(p) => n := CompactionDigests(p, t, i, k, a);
    case Append(more) => AnswerStays(t, more, i, k, a);
    case Unledger => StripKeeps(t, i, k, a);
  }

  lemma AnswerStays(t: seq<Turn>, more: seq<Turn>, i: nat, k: nat, a: Answer)
    requires AnswerAt(t, i, k, a)
    ensures AnswerAt(t + more, i, k, a)
  {
  }

  /** Whatever a run does to its transcript, what is left of an answer is some number of
      digests of it. */
  lemma {:induction false} RoundsDigest(c: Codec, t: seq<Turn>, rounds: seq<Round>, a: Answer) returns (n: nat)
    requires a.Answer? && Holds(t, a) && forall r :: r in rounds && r.Compaction? ==> r.policy.codec == c
    ensures Holds(After(t, rounds), a.(output := Digests(c, a.name, a.output, n)))
    decreases |rounds|
  {
    hide Digests, Apply, Holds;
    DigestedNever(c, a);
    if rounds == [] {
      n := 0;
    } else {
      var init, last := rounds[..|rounds| - 1], rounds[|rounds| - 1];
      var before := RoundsDigest(c, t, init, a);
      var b := a.(output := Digests(c, a.name, a.output, before));
      var more := RoundDigests(c, After(t, init), last, b);
      DigestsCompose(c, a.name, a.output, before, more);
      n := before + more;
    }
  }

  /** A result that names a job, where the id fits, is left alone or keeps the id at its head,
      through any number of compactions under any budgets and everything a run does between. */
  lemma JobSurvivesCompaction(
    c: Codec, t: seq<Turn>, rounds: seq<Round>, a: Answer, data: map<string, Value>, job: string)
    returns (left: Answer)
    requires a.Answer? && Holds(t, a) && forall r :: r in rounds && r.Compaction? ==> r.policy.codec == c
    requires NamesJob(c, a.output, data, job) && JobFits(c, a.name, a.output, data, job)
    requires SoundCodec(c) && RendersJobFirst(c)
    ensures left.Answer? && left.id == a.id && Holds(After(t, rounds), left)
    ensures left == a || JobHead(job) <= left.output
  {
    hide *;
    var n := RoundsDigest(c, t, rounds, a);
    left := a.(output := Digests(c, a.name, a.output, n));
    if n == 0 {
      DigestedNever(c, a);
    } else {
      JobSurvives(c, a.name, a.output, data, job, n);
      CarriesOpens(c, a.name, job, left.output);
    }
  }

  lemma CarriesOpens(c: Codec, name: string, job: string, text: string)
    requires Carries(c, name, job, text)
    ensures JobHead(job) <= text
  {
    hide Digest;
  }
}
