/** Values that the image server reads from its configuration and from the
    notification broker, and the side effects it performs on the outside world. */
module Types {

  datatype Option<+T> = None | Some(value: T)

  /** Go's uint32, the type of the configured port. */
  type Uint32 = x: int | 0 <= x < 0x1_0000_0000

  /** The server configuration, loaded once from config.yml. */
  datatype Config = Config(
    port: Uint32,
    inputBucket: string,
    outputBucket: string,
    region: string,
    accessKey: string,
    secretKey: string)

  /** The stored-object event carried inside a notification's Message. */
  datatype NewImageObject = NewImageObject(key: string)
  datatype NewImageS3 = NewImageS3(obj: NewImageObject)
  datatype NewImageRecord = NewImageRecord(s3: NewImageS3)
  datatype NewImageMessage = NewImageMessage(records: seq<NewImageRecord>)

  /** The fields of a subscription-confirmation delivery the server reads. */
  datatype SubscriptionConfirmation = SubscriptionConfirmation(token: string, topicArn: string, messageType: string)

  /** The fields of a notification delivery the server reads. */
  datatype BroadcastNotification = BroadcastNotification(message: string, messageType: string)

  /** One entry of a bucket listing; the key pointer may be nil. */
  datatype ListedObject = ListedObject(key: Option<string>)

  /** The outcome of listing a bucket. */
  datatype Listing = Listed(contents: seq<ListedObject>) | ListError(message: string)

  /** A call the server issues to the file system, the object store, the
      notification broker or the event stream, in the order it issues them. */
  datatype Effect =
    | Fetch(url: string)
    | CreateFile(name: string)
    | Put(bucket: string, key: string, contentType: string)
    | Remove(name: string)
    | Broadcast(url: string)
    | Confirm(token: string, topicArn: string, authenticateOnUnsubscribe: string)
}
