/**
 * The small translations of the adapter: the constructor's defaults, the
 * visibility-to-ACL mapping, the OSS options derived from a Flysystem
 * configuration bag, and the file size read from object metadata.
 */
module Mappings {
  import opened Php
  import opened Oss

  const DefaultEndpoint := "oss-cn-hangzhou.aliyuncs.com"
  const DefaultTimeout := 3600
  const DefaultConnectTimeout := 10

  /**
   * The adapter's constructor settings. The three credentials are read
   * without a default; every other setting may be absent (`None`), which
   * `??` treats like an explicit `null`.
   */
  datatype Config = Config(
    accessId: string,
    accessSecret: string,
    bucket: string,
    endpoint: Option<string>,
    timeout: Option<int>,
    connectTimeout: Option<int>,
    isCName: Option<bool>,
    token: Option<string>,
    proxy: Option<string>)

  /** What the constructor hands the client: its constructor arguments and the two timeouts. */
  datatype Resolved = Resolved(client: ClientArgs, timeout: int, connectTimeout: int)

  function Or<T>(o: Option<T>, default: T): T
  {
    match o
    case Some(v) => v
    case None => default
  }

  /** The constructor's `??` substitutions: given settings pass through, missing ones take their defaults. */
  function Resolve(config: Config): (r: Resolved)
    ensures r.client.accessId == config.accessId && r.client.accessSecret == config.accessSecret
    ensures config.endpoint.Some? ==> r.client.endpoint == config.endpoint.value
    ensures config.endpoint.None? ==> r.client.endpoint == DefaultEndpoint
    ensures config.timeout.Some? ==> r.timeout == config.timeout.value
    ensures config.timeout.None? ==> r.timeout == DefaultTimeout
    ensures config.connectTimeout.Some? ==> r.connectTimeout == config.connectTimeout.value
    ensures config.connectTimeout.None? ==> r.connectTimeout == DefaultConnectTimeout
    ensures r.client.isCName == (config.isCName == Some(true))
    ensures r.client.token == config.token && r.client.proxy == config.proxy
  {
    Resolved(
      ClientArgs(config.accessId, config.accessSecret, Or(config.endpoint, DefaultEndpoint),
                 Or(config.isCName, false), config.token, config.proxy),
      Or(config.timeout, DefaultTimeout),
      Or(config.connectTimeout, DefaultConnectTimeout))
  }

  const Public := "public"
  const PublicRead := "public-read"
  const Private := "private"

  /** The ACL `setVisibility` sends: `public-read` for exactly `public`, `private` for anything else. */
  function Acl(visibility: string): (acl: string)
    ensures acl == PublicRead <==> visibility == Public
    ensures acl == Private <==> visibility != Public
  {
    if visibility == Public then PublicRead else Private
  }

  /**
   * `getOssOptions`: `headers` and `Content-Type` are copied when truthy; a
   * truthy `Content-Md5` is copied together with `checkmd5 = false`; nothing
   * else appears.
   */
  function OssOptions(config: Bag): (options: Bag)
    ensures "headers" in options <==> Truthy(Get(config, "headers"))
    ensures "headers" in options ==> options["headers"] == config["headers"]
    ensures "Content-Type" in options <==> Truthy(Get(config, "Content-Type"))
    ensures "Content-Type" in options ==> options["Content-Type"] == config["Content-Type"]
    ensures "Content-Md5" in options <==> Truthy(Get(config, "Content-Md5"))
    ensures "Content-Md5" in options ==> options["Content-Md5"] == config["Content-Md5"]
    ensures "checkmd5" in options <==> Truthy(Get(config, "Content-Md5"))
    ensures "checkmd5" in options ==> options["checkmd5"] == Bool(false)
    ensures options.Keys <= {"headers", "Content-Type", "Content-Md5", "checkmd5"}
  {
    var headers := Get(config, "headers");
    var contentType := Get(config, "Content-Type");
    var contentMd5 := Get(config, "Content-Md5");
    var withHeaders: Bag := if Truthy(headers) then map["headers" := headers] else map[];
    var withType := if Truthy(contentType) then withHeaders["Content-Type" := contentType] else withHeaders;
    if Truthy(contentMd5) then withType["Content-Md5" := contentMd5]["checkmd5" := Bool(false)] else withType
  }

  /** `getOssOptions` as the source writes it, filling the options key by key. */
  method GetOssOptions(config: Bag) returns (options: Bag)
    ensures options == OssOptions(config)
  {
    options := map[];
    var headers := Get(config, "headers");
    if Truthy(headers) {
      options := options["headers" := headers];
    }
    var contentType := Get(config, "Content-Type");
    if Truthy(contentType) {
      options := options["Content-Type" := contentType];
    }
    var contentMd5 := Get(config, "Content-Md5");
    if Truthy(contentMd5) {
      options := options["Content-Md5" := contentMd5];
      options := options["checkmd5" := Bool(false)];
    }
  }

  /** Flysystem's `FileAttributes`: a path and the attributes one accessor fills in. */
  datatype FileAttributes = FileAttributes(
    path: string,
    fileSize: Option<int>,
    visibility: Option<string>,
    lastModified: Option<Value>,
    mimeType: Option<Value>)

  /**
   * `fileSize`'s extraction: the size is set exactly when the metadata holds
   * a non-null `content-length`, converted by `toInt` (PHP's `(int)` cast);
   * no other attribute is set.
   */
  function SizeAttributes(path: string, meta: Meta, toInt: Value -> int): (a: FileAttributes)
    ensures a.path == path
    ensures a.fileSize.Some? <==> "content-length" in meta && meta["content-length"] != Null
    ensures a.fileSize.Some? ==> a.fileSize.value == toInt(meta["content-length"])
    ensures a.visibility.None? && a.lastModified.None? && a.mimeType.None?
  {
    var fileSize := if "content-length" in meta && meta["content-length"] != Null
                    then Some(toInt(meta["content-length"])) else None;
    FileAttributes(path, fileSize, None, None, None)
  }
}
