/** The HTTP handlers: the notification webhook, the upload-URL endpoint and
    the thumbnail listing. */
module Handlers {
  import opened Types
  import opened Urls
  import opened Pipeline

  /** What the webhook does with a delivery, decided by the exact value of its
      message-type header. */
  datatype Route = ConfirmSubscription | ProcessNotification | Ignore

  function RouteOf(messageType: string): Route
  {
    if messageType == "SubscriptionConfirmation" then ConfirmSubscription
    else if messageType == "Notification" then ProcessNotification
    else Ignore
  }

  /** The webhook. The confirmation and the pipeline run in the background
      after the response is written; here they run to completion and their
      calls are returned in `log`. `unmarshal` stands for decoding a
      notification's Message into a NewImageMessage. */
  method HandleNewUpload(
    c: Config,
    messageType: string,
    confirmation: SubscriptionConfirmation,
    notification: BroadcastNotification,
    unmarshal: string -> NewImageMessage,
    o: Outcomes)
    returns (body: string, log: seq<Effect>)
    ensures body == "OK" <==> messageType == "SubscriptionConfirmation" || messageType == "Notification"
    ensures body != "OK" ==> body == [] && log == []
    ensures messageType == "SubscriptionConfirmation" ==>
      log == [Confirm(confirmation.token, confirmation.topicArn, "true")]
    ensures messageType == "Notification" ==>
      log == PipelineLog(c, unmarshal(notification.message), o)
  {
    body, log := [], [];
    match RouteOf(messageType)
    case ConfirmSubscription =>
      log := [Confirm(confirmation.token, confirmation.topicArn, "true")];
      body := "OK";
    case ProcessNotification =>
      log := UploadThumbnailVersion(c, unmarshal(notification.message), o);
      body := "OK";
    case Ignore =>
  }

  /** The URL a client uploads a new image to: the input bucket, a key made of
      the generated UUID and ".jpg", over plain http. */
  function HandleUploadUrl(c: Config, uuid: string): (u: string)
    ensures u == "http" + ObjectUrl(c.region, c.inputBucket, uuid + ".jpg")[5..]
  {
    "http://s3." + c.region + ".amazonaws.com/" + c.inputBucket + "/" + uuid + ".jpg"
  }

  /** When the notification for an uploaded image arrives, the pipeline fetches
      the very object the upload URL names, over https instead of http. */
  lemma UploadedImageIsFetched(c: Config, uuid: string, m: NewImageMessage, o: Outcomes)
    requires |m.records| > 0 && m.records[0].s3.obj.key == uuid + ".jpg"
    ensures PipelineLog(c, m, o)[0] == Fetch("https" + HandleUploadUrl(c, uuid)[4..])
  {
  }

  /** The keys present in a listing, in listing order. */
  function PresentKeys(contents: seq<ListedObject>): seq<string>
  {
    if contents == [] then []
    else (if contents[0].key.Some? then [contents[0].key.value] else []) + PresentKeys(contents[1..])
  }

  /** The thumbnail URLs for a listing of the output bucket: one per present
      key, in listing order. */
  function ListingUrls(c: Config, contents: seq<ListedObject>): seq<string>
  {
    var keys := PresentKeys(contents);
    seq(|keys|, i requires 0 <= i < |keys| => ObjectUrl(c.region, c.outputBucket, keys[i]))
  }

  /** What the listing endpoint writes: the URL list (sent as a JSON array) or
      an HTTP error. */
  datatype ImagesReply = Thumbnails(urls: seq<string>) | HttpError(status: int, body: string)

  /** The listing endpoint. A listing error becomes status 500 with the error
      text followed by a newline; otherwise the reply starts from an empty list
      and appends the output-bucket URL of every object whose key is present. */
  method HandleImages(c: Config, listing: Listing) returns (reply: ImagesReply)
    ensures listing.ListError? ==> reply == HttpError(500, listing.message + "\n")
    ensures listing.Listed? ==> reply == Thumbnails(ListingUrls(c, listing.contents))
  {
    if listing.ListError? {
      return HttpError(500, listing.message + "\n");
    }
    var contents := listing.contents;
    var thumbnails: seq<string> := [];
    for i := 0 to |contents|
      invariant thumbnails == ListingUrls(c, contents[..i])
    {
      PresentKeysAppend(contents[..i], contents[i]);
      assert contents[..i + 1] == contents[..i] + [contents[i]];
      if contents[i].key.Some? {
        thumbnails := thumbnails + [ObjectUrl(c.region, c.outputBucket, contents[i].key.value)];
      }
    }
    assert contents[..|contents|] == contents;
    return Thumbnails(thumbnails);
  }

  lemma {:induction false} PresentKeysAppend(contents: seq<ListedObject>, x: ListedObject)
    ensures PresentKeys(contents + [x]) == PresentKeys(contents) + (if x.key.Some? then [x.key.value] else [])
  {
    if contents == [] {
      assert contents + [x] == [x];
    } else {
      assert (contents + [x])[1..] == contents[1..] + [x];
      PresentKeysAppend(contents[1..], x);
    }
  }

  /** A key is listed exactly when some object of the listing carries it. */
  lemma {:induction false} PresentKeysMembers(contents: seq<ListedObject>, k: string)
    ensures k in PresentKeys(contents) <==> exists i | 0 <= i < |contents| :: contents[i].key == Some(k)
  {
    if contents != [] {
      PresentKeysMembers(contents[1..], k);
      if k in PresentKeys(contents[1..]) {
        var i :| 0 <= i < |contents[1..]| && contents[1..][i].key == Some(k);
        assert contents[i + 1].key == Some(k);
      }
      if exists i | 0 <= i < |contents| :: contents[i].key == Some(k) {
        var i :| 0 <= i < |contents| && contents[i].key == Some(k);
        if i > 0 {
          assert contents[1..][i - 1].key == Some(k);
        }
      }
    }
  }

  /** Every URL in the listing reply is the output-bucket URL of a key present
      in the listing, and every present key's URL is in the reply. */
  lemma ListingUrlsMembers(c: Config, contents: seq<ListedObject>, u: string)
    ensures u in ListingUrls(c, contents) <==>
      exists i | 0 <= i < |contents| :: contents[i].key.Some? && u == ObjectUrl(c.region, c.outputBucket, contents[i].key.value)
  {
    var keys := PresentKeys(contents);
    var urls := ListingUrls(c, contents);
    if u in urls {
      var j :| 0 <= j < |urls| && urls[j] == u;
      PresentKeysMembers(contents, keys[j]);
    }
    if exists i | 0 <= i < |contents| :: contents[i].key.Some? && u == ObjectUrl(c.region, c.outputBucket, contents[i].key.value) {
      var i :| 0 <= i < |contents| && contents[i].key.Some? && u == ObjectUrl(c.region, c.outputBucket, contents[i].key.value);
      PresentKeysMembers(contents, contents[i].key.value);
      var j :| 0 <= j < |keys| && keys[j] == contents[i].key.value;
      assert urls[j] == u;
    }
  }

  /** The reply has one URL per present key, in listing order, and every URL
      decodes back to its key. */
  lemma ListingUrlsDecode(c: Config, contents: seq<ListedObject>)
    ensures |ListingUrls(c, contents)| == |PresentKeys(contents)|
    ensures forall j | 0 <= j < |PresentKeys(contents)| ::
      KeyOfUrl(c.region, c.outputBucket, ListingUrls(c, contents)[j]) == Some(PresentKeys(contents)[j])
  {
  }

  /** The reply is empty exactly when no listed object has a key; in
      particular an empty listing gives an empty list, not a missing one. */
  lemma {:induction false} ListingEmptyIff(c: Config, contents: seq<ListedObject>)
    ensures ListingUrls(c, contents) == [] <==> forall i | 0 <= i < |contents| :: contents[i].key.None?
  {
    if ListingUrls(c, contents) != [] {
      var k := PresentKeys(contents)[0];
      PresentKeysMembers(contents, k);
    } else {
      forall i | 0 <= i < |contents|
        ensures contents[i].key.None?
      {
        if contents[i].key.Some? {
          PresentKeysMembers(contents, contents[i].key.value);
        }
      }
    }
  }
}
