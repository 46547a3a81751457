# Thumbnail image server: a Dafny model

The server receives S3 "object created" notifications through an SNS webhook.
For each one it fetches the new image from the input bucket and makes a
640×480-bounded JPEG thumbnail. It stores the thumbnail under the same key in
the output bucket and announces its URL on a server-sent event stream. It also
confirms the SNS subscription, hands out upload URLs and lists the stored
thumbnails.

This model covers the decisions and the order of side effects in
`main.go`. Every call into AWS, the JPEG codec, the resize library and the
file system is an abstract outcome. The model records the calls the server
issues, in order, as a log of `Effect`s: `Fetch`, `CreateFile`, `Put`,
`Remove`, `Broadcast` and `Confirm`.

- `types.dfy` (module `Types`): the configuration, the notification structs
  (`NewImageMessage`, `NewImageRecord`, …), the two SNS delivery shapes, a
  bucket listing and the `Effect` log entries.
- `urls.dfy` (module `Urls`): the public S3 URL built from region, bucket and
  key; the resized-file name; `KeyOfUrl`, the inverse of the URL builder.
- `pipeline.dfy` (module `Pipeline`): `UploadThumbnailVersion` as a method that
  builds the effect log step by step and returns at the first failing stage.
  It is proved equal to `PipelineLog`, a declarative definition: the planned
  seven calls, cut after the first failure. The properties of a run are lemmas
  about `PipelineLog`.
- `handlers.dfy` (module `Handlers`): the webhook dispatch on the exact
  message-type string, the upload-URL string, and the listing loop of
  `handleImages`, proved against `ListingUrls`.

Stage outcomes are a record of six booleans. They cover the fetch, creating
`<key>`, copying the body, decoding, creating `<key>_resized.jpg` and the
PutObject call. A fetch that is refused with a non-2xx status still counts
as a successful fetch, as `http.Get` reports it. Such a body then fails at
decoding. Encoding is not a failure point because its error is ignored.

In three places the code does less than a reader might expect; the model
follows the code:
- Only the first record of a notification is processed, not one run per
  record (`OnlyFirstRecordMatters`).
- The two local files are removed only after a successful PutObject. Every
  failure after `<key>` is created leaves it on disk (`FailureLeavesSourceFile`,
  `PutFailureLeavesTempFiles`).
- The upload URL uses plain `http`, while every other URL uses `https`
  (`HandleUploadUrl`).

## Model

| member | source | states |
|---|---|---|
| Urls.ObjectUrl | main.go:123 | the URL is the fixed prefix `https://s3.<region>.amazonaws.com/<bucket>/` followed by exactly the key |
| Urls.ResizedName | main.go:156 | the thumbnail file name is the key followed by exactly `_resized.jpg` |
| Urls.KeyOfUrlInverts | main.go:251 | a URL decodes to a key if and only if it is that key's URL in the same region and bucket |
| Urls.ObjectUrlInjective | main.go:194 | in one region and bucket, distinct keys are announced under distinct URLs |
| Pipeline.UploadThumbnailVersion | main.go:107-196 | the calls issued step by step, with early returns, are exactly `PipelineLog`: the seven planned calls cut after the first failing stage |
| Pipeline.NoKeyNoEffects | main.go:110 | no fetch, file, store or event happens if and only if there are no records or the first key is empty |
| Pipeline.OnlyFirstRecordMatters | main.go:110-194 | records after the first never change the calls issued |
| Pipeline.EffectsNameFirstKey | main.go:123-194 | the first call fetches the first key's input-bucket URL, and every call names that key |
| Pipeline.EarlyFailureStopsBeforePut | main.go:123-160 | a failed fetch, file creation, copy or decode leaves only fetches and file creations: no store, no removal, no event |
| Pipeline.PutFailureLeavesTempFiles | main.go:177-192 | a failed PutObject is the last call; both local files were created and neither is removed; no event |
| Pipeline.FailureLeavesSourceFile | main.go:131-192 | once `<key>` is created, any later failure leaves it unremoved |
| Pipeline.SuccessEnding | main.go:190-194 | a full success issues seven calls ending with remove `<key>`, remove `<key>_resized.jpg`, broadcast of the output URL; every created file is removed after its creation |
| Pipeline.BroadcastIffSuccess | main.go:183-194 | exactly one event, carrying the output-bucket URL of the key, is sent if every stage succeeds, and none otherwise |
| Pipeline.PutIffReached | main.go:177-182 | exactly one PutObject, to the output bucket under the source key with type `image/jpg`, is issued if every earlier stage succeeds, and none otherwise |
| Pipeline.BroadcastOnlyAfterPut | main.go:177-194 | an event is sent only when PutObject succeeded, and only after the PutObject call |
| Handlers.HandleNewUpload | main.go:198-232 | the type match is exact: a confirmation makes one confirm with the token, the topic and `"true"`; a notification runs the pipeline on its Message; both answer "OK"; any other type does nothing and writes nothing |
| Handlers.HandleUploadUrl | main.go:234-237 | the upload URL is the input-bucket URL of `<uuid>.jpg` with scheme `http` instead of `https` |
| Handlers.UploadedImageIsFetched | main.go:234-237 | a notification for an uploaded `<uuid>.jpg` fetches the object the upload URL named, over https |
| Handlers.HandleImages | main.go:239-261 | a listing error gives status 500 with the error text and a newline; otherwise the reply is the list built by the loop, equal to `ListingUrls` |
| Handlers.PresentKeysMembers | main.go:249-252 | a key is among the present keys if and only if some listed object carries it |
| Handlers.ListingUrlsMembers | main.go:248-253 | a URL is in the reply if and only if it is the output-bucket URL of a listed object's key |
| Handlers.ListingUrlsDecode | main.go:251 | the reply has one URL per present key in listing order, and each URL decodes back to its key |
| Handlers.ListingEmptyIff | main.go:248-253 | the reply is the empty list if and only if no listed object has a key, so an empty listing gives `[]` |

## Left out

- AWS calls (S3 PutObject and ListObjects, SNS ConfirmSubscription) and the raw HTTP fetch are network clients. Each is an abstract success or failure outcome, or a listing value.
- The JPEG decoding, encoding and the 640×480 nearest-neighbour resize are image numerics in external libraries. The model claims no bound on thumbnail dimensions.
- JSON decoding of deliveries and messages ignores its errors. The parsed structs are inputs, and decoding a notification's Message is the function parameter `unmarshal`.
- JSON encoding of the listing reply is left out. The reply carries the URL list itself.
- The goroutines spawned per webhook delivery are run to completion in sequence. Concurrency between deliveries is not modelled.
- The event stream's listener set lives in an external library. Sending an event is a `Broadcast` entry in the log; fan-out to listeners is not modelled.
- Local file details (`Sync`, the empty `bufio` flushes, re-opening the files, `Stat` and `Read` into a buffer, `Close`) are not modelled. Only file creation and removal are effects. A failure to re-open `<key>` shows up as a decode failure. A failure to re-open `<key>_resized.jpg` (main.go:169-171) makes `Stat` return no file information and the server panics; that panic is not modelled. That file is also never closed, so each run that reaches it keeps one file descriptor open; descriptors are not modelled.
- Log messages are not modelled.
- Configuration loading, fatal exits, routing, the `$PORT` check and the CORS wrapper are process setup, not modelled.
- UUID generation is an input of `HandleUploadUrl`.
- The `Server.Thumbnails` field is initialised and never read, so it is not modelled.
