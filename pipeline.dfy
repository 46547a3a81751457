/** The thumbnail pipeline run for one notification: fetch the source image,
    copy it to a local file, decode, resize, write the thumbnail to a second
    local file, store it in the output bucket, delete both files and announce
    the thumbnail's URL. Every call into the outside world is an abstract
    outcome; the model records the calls issued, in order. */
module Pipeline {
  import opened Types
  import opened Urls

  const ContentType: string := "image/jpg"

  /** Whether each failure-prone stage succeeds: the fetch, creating `<key>`,
      copying the fetched body into it, decoding it, creating
      `<key>_resized.jpg` and the PutObject call. */
  datatype Outcomes = Outcomes(
    fetched: bool,
    sourceCreated: bool,
    copied: bool,
    decoded: bool,
    resizedCreated: bool,
    stored: bool)

  /** Every stage up to and including the creation of the resized file succeeds. */
  predicate ReachesPut(o: Outcomes)
  {
    o.fetched && o.sourceCreated && o.copied && o.decoded && o.resizedCreated
  }

  predicate AllSucceed(o: Outcomes)
  {
    ReachesPut(o) && o.stored
  }

  /** The key the pipeline works on: that of the first record, if there is one
      and it is not empty. */
  function SourceKey(m: NewImageMessage): Option<string>
  {
    if |m.records| > 0 && |m.records[0].s3.obj.key| > 0 then Some(m.records[0].s3.obj.key) else None
  }

  /** The calls a fully successful run issues for `key`, in order. */
  function Planned(c: Config, key: string): seq<Effect>
  {
    [ Fetch(ObjectUrl(c.region, c.inputBucket, key)),
      CreateFile(key),
      CreateFile(ResizedName(key)),
      Put(c.outputBucket, key, ContentType),
      Remove(key),
      Remove(ResizedName(key)),
      Broadcast(ObjectUrl(c.region, c.outputBucket, key)) ]
  }

  /** How many of the planned calls are issued before the first failure stops
      the run (the failing call itself is issued). */
  function Issued(o: Outcomes): nat
  {
    if !o.fetched then 1
    else if !(o.sourceCreated && o.copied && o.decoded) then 2
    else if !o.resizedCreated then 3
    else if !o.stored then 4
    else 7
  }

  /** The calls one run issues: none without a key, otherwise the planned
      calls up to the first failing stage. */
  function PipelineLog(c: Config, m: NewImageMessage, o: Outcomes): seq<Effect>
  {
    match SourceKey(m)
    case None => []
    case Some(key) => Planned(c, key)[..Issued(o)]
  }

  /** The run itself, step by step, returning at the first failing stage. */
  method UploadThumbnailVersion(c: Config, message: NewImageMessage, o: Outcomes) returns (log: seq<Effect>)
    ensures log == PipelineLog(c, message, o)
  {
    log := [];
    if |message.records| > 0 && |message.records[0].s3.obj.key| > 0 {
      var key := message.records[0].s3.obj.key;
      log := log + [Fetch(ObjectUrl(c.region, c.inputBucket, key))];
      if !o.fetched {
        return;
      }
      log := log + [CreateFile(key)];
      if !o.sourceCreated {
        return;
      }
      if !o.copied {
        return;
      }
      if !o.decoded {
        return;
      }
      var resized := ResizedName(key);
      log := log + [CreateFile(resized)];
      if !o.resizedCreated {
        return;
      }
      log := log + [Put(c.outputBucket, key, ContentType)];
      if !o.stored {
        return;
      }
      log := log + [Remove(key)];
      log := log + [Remove(resized)];
      log := log + [Broadcast(ObjectUrl(c.region, c.outputBucket, key))];
    }
  }

  /** The event messages sent to the event stream, in order. */
  function Broadcasts(log: seq<Effect>): seq<string>
  {
    if log == [] then []
    else (if log[0].Broadcast? then [log[0].url] else []) + Broadcasts(log[1..])
  }

  /** The PutObject calls issued, in order. */
  function Puts(log: seq<Effect>): seq<Effect>
  {
    if log == [] then []
    else (if log[0].Put? then [log[0]] else []) + Puts(log[1..])
  }

  /** An effect of a run on `key` refers to that key and to nothing else: the
      input-bucket URL, one of the two local files, the output bucket, or the
      output-bucket URL. */
  predicate NamesKey(c: Config, key: string, e: Effect)
  {
    match e
    case Fetch(u) => u == ObjectUrl(c.region, c.inputBucket, key)
    case CreateFile(n) => n == key || n == ResizedName(key)
    case Put(b, k, t) => b == c.outputBucket && k == key && t == ContentType
    case Remove(n) => n == key || n == ResizedName(key)
    case Broadcast(u) => u == ObjectUrl(c.region, c.outputBucket, key)
    case Confirm(_, _, _) => false
  }

  /** A run does something exactly when the first record has a non-empty key. */
  lemma NoKeyNoEffects(c: Config, m: NewImageMessage, o: Outcomes)
    ensures PipelineLog(c, m, o) == [] <==> |m.records| == 0 || m.records[0].s3.obj.key == []
  {
  }

  /** Records after the first never influence a run. */
  lemma OnlyFirstRecordMatters(c: Config, r: NewImageRecord, rest1: seq<NewImageRecord>, rest2: seq<NewImageRecord>, o: Outcomes)
    ensures PipelineLog(c, NewImageMessage([r] + rest1), o) == PipelineLog(c, NewImageMessage([r] + rest2), o)
  {
  }

  /** A run starts by fetching the first record's key from the input bucket,
      and every call it issues names that key. */
  lemma EffectsNameFirstKey(c: Config, m: NewImageMessage, o: Outcomes)
    requires |m.records| > 0 && m.records[0].s3.obj.key != []
    ensures PipelineLog(c, m, o)[0] == Fetch(ObjectUrl(c.region, c.inputBucket, m.records[0].s3.obj.key))
    ensures forall e <- PipelineLog(c, m, o) :: NamesKey(c, m.records[0].s3.obj.key, e)
  {
  }

  /** A failure of the fetch, of creating `<key>`, of the copy, of decoding or
      of creating `<key>_resized.jpg` stops the run before the PutObject: no
      store, no file removed, no event. */
  lemma EarlyFailureStopsBeforePut(c: Config, m: NewImageMessage, o: Outcomes)
    requires !ReachesPut(o)
    ensures forall e <- PipelineLog(c, m, o) :: e.Fetch? || e.CreateFile?
  {
  }

  /** A failed PutObject is the last call: no event is sent and neither local
      file is removed, although both were created. */
  lemma PutFailureLeavesTempFiles(c: Config, m: NewImageMessage, o: Outcomes)
    requires SourceKey(m).Some? && ReachesPut(o) && !o.stored
    ensures var log, key := PipelineLog(c, m, o), SourceKey(m).value;
      log[|log| - 1] == Put(c.outputBucket, key, ContentType) &&
      CreateFile(key) in log && CreateFile(ResizedName(key)) in log &&
      forall e <- log :: !e.Remove? && !e.Broadcast?
  {
    var log, key := PipelineLog(c, m, o), SourceKey(m).value;
    assert log[1] == CreateFile(key) && log[2] == CreateFile(ResizedName(key));
  }

  /** Once `<key>` is created, any failure leaves it on disk. */
  lemma FailureLeavesSourceFile(c: Config, m: NewImageMessage, o: Outcomes)
    requires SourceKey(m).Some? && o.fetched && o.sourceCreated && !AllSucceed(o)
    ensures CreateFile(SourceKey(m).value) in PipelineLog(c, m, o)
    ensures Remove(SourceKey(m).value) !in PipelineLog(c, m, o)
  {
    var key := SourceKey(m).value;
    var log := PipelineLog(c, m, o);
    assert log[1] == CreateFile(key);
    forall i | 0 <= i < |log|
      ensures log[i] != Remove(key)
    {
      assert i < 4;
    }
  }

  /** A fully successful run ends by removing `<key>`, then
      `<key>_resized.jpg`, then announcing the thumbnail's URL; every file it
      created is removed after its creation. */
  lemma SuccessEnding(c: Config, m: NewImageMessage, o: Outcomes)
    requires SourceKey(m).Some? && AllSucceed(o)
    ensures var log, key := PipelineLog(c, m, o), SourceKey(m).value;
      |log| == 7 &&
      log[4..] == [Remove(key), Remove(ResizedName(key)), Broadcast(ObjectUrl(c.region, c.outputBucket, key))]
    ensures var log := PipelineLog(c, m, o);
      forall i | 0 <= i < |log| && log[i].CreateFile? :: exists j | i < j < |log| :: log[j] == Remove(log[i].name)
  {
    var log := PipelineLog(c, m, o);
    assert log[1].CreateFile? && log[4] == Remove(log[1].name);
    assert log[2].CreateFile? && log[5] == Remove(log[2].name);
  }

  /** Exactly one event is sent, carrying the output-bucket URL of the key, if
      every stage succeeds; otherwise none. */
  lemma {:induction false} BroadcastIffSuccess(c: Config, m: NewImageMessage, o: Outcomes)
    ensures Broadcasts(PipelineLog(c, m, o)) ==
      if SourceKey(m).Some? && AllSucceed(o)
      then [ObjectUrl(c.region, c.outputBucket, SourceKey(m).value)]
      else []
  {
    if SourceKey(m).Some? {
      BroadcastsOfPrefix(c, SourceKey(m).value, Issued(o));
    }
  }

  lemma {:induction false} BroadcastsOfPrefix(c: Config, key: string, n: nat)
    requires n <= 7
    ensures Broadcasts(Planned(c, key)[..n]) == if n == 7 then [ObjectUrl(c.region, c.outputBucket, key)] else []
  {
    var p := Planned(c, key);
    if n > 0 {
      assert p[..n] == p[..n - 1] + [p[n - 1]];
      BroadcastsOfPrefix(c, key, n - 1);
      BroadcastsAppend(p[..n - 1], [p[n - 1]]);
    }
  }

  lemma {:induction false} BroadcastsAppend(a: seq<Effect>, b: seq<Effect>)
    ensures Broadcasts(a + b) == Broadcasts(a) + Broadcasts(b)
  {
    if a == [] {
      assert a + b == b;
    } else {
      assert (a + b)[1..] == a[1..] + b;
      BroadcastsAppend(a[1..], b);
    }
  }

  /** Exactly one PutObject is issued, to the output bucket under the source
      key with content type image/jpg, if every stage before it succeeds;
      otherwise none. */
  lemma {:induction false} PutIffReached(c: Config, m: NewImageMessage, o: Outcomes)
    ensures Puts(PipelineLog(c, m, o)) ==
      if SourceKey(m).Some? && ReachesPut(o)
      then [Put(c.outputBucket, SourceKey(m).value, ContentType)]
      else []
  {
    if SourceKey(m).Some? {
      PutsOfPrefix(c, SourceKey(m).value, Issued(o));
    }
  }

  lemma {:induction false} PutsOfPrefix(c: Config, key: string, n: nat)
    requires n <= 7
    ensures Puts(Planned(c, key)[..n]) == if n >= 4 then [Put(c.outputBucket, key, ContentType)] else []
  {
    var p := Planned(c, key);
    if n > 0 {
      assert p[..n] == p[..n - 1] + [p[n - 1]];
      PutsOfPrefix(c, key, n - 1);
      PutsAppend(p[..n - 1], [p[n - 1]]);
    }
  }

  lemma {:induction false} PutsAppend(a: seq<Effect>, b: seq<Effect>)
    ensures Puts(a + b) == Puts(a) + Puts(b)
  {
    if a == [] {
      assert a + b == b;
    } else {
      assert (a + b)[1..] == a[1..] + b;
      PutsAppend(a[1..], b);
    }
  }

  /** An event is sent only after a PutObject that succeeded. */
  lemma BroadcastOnlyAfterPut(c: Config, m: NewImageMessage, o: Outcomes)
    ensures var log := PipelineLog(c, m, o);
      forall i | 0 <= i < |log| && log[i].Broadcast? :: o.stored && exists j | 0 <= j < i :: log[j].Put?
  {
    var log := PipelineLog(c, m, o);
    if |log| == 7 {
      assert log[3].Put?;
    }
  }
}
