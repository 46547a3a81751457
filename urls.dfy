/** The public S3 URLs the server builds from a region, a bucket and a key. */
module Urls {
  import opened Types

  /** Everything of an object's public https URL that comes before its key. */
  function ObjectPrefix(region: string, bucket: string): string
  {
    "https://s3." + region + ".amazonaws.com/" + bucket + "/"
  }

  /** The public https URL of `key` in `bucket`, used to fetch a source image,
      to announce a thumbnail and to list thumbnails. */
  function ObjectUrl(region: string, bucket: string, key: string): (u: string)
    ensures |u| == |ObjectPrefix(region, bucket)| + |key|
    ensures u[..|ObjectPrefix(region, bucket)|] == ObjectPrefix(region, bucket)
    ensures u[|ObjectPrefix(region, bucket)|..] == key
  {
    "https://s3." + region + ".amazonaws.com/" + bucket + "/" + key
  }

  /** The name of the local file the resized image is written to. */
  function ResizedName(key: string): (n: string)
    ensures |n| == |key| + 12 && n[..|key|] == key && n[|key|..] == "_resized.jpg"
  {
    key + "_resized.jpg"
  }

  /** Recovers the key from a URL built by ObjectUrl for the same region and
      bucket; None for any other string. */
  function KeyOfUrl(region: string, bucket: string, url: string): Option<string>
  {
    var p := ObjectPrefix(region, bucket);
    if |p| <= |url| && url[..|p|] == p then Some(url[|p|..]) else None
  }

  /** KeyOfUrl inverts ObjectUrl exactly: a URL yields a key if and only if it
      is that key's URL. */
  lemma KeyOfUrlInverts(region: string, bucket: string, url: string, key: string)
    ensures KeyOfUrl(region, bucket, url) == Some(key) <==> ObjectUrl(region, bucket, key) == url
  {
  }

  /** Within one region and bucket, distinct keys get distinct URLs. */
  lemma ObjectUrlInjective(region: string, bucket: string, k1: string, k2: string)
    requires ObjectUrl(region, bucket, k1) == ObjectUrl(region, bucket, k2)
    ensures k1 == k2
  {
  }
}
