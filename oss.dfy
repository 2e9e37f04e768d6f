/**
 * The Aliyun OSS client as the adapter sees it. Its implementation (network,
 * signing, storage) lies outside this model: the client is an oracle that
 * answers listing and metadata requests from fixed tables, fails the calls
 * named in `rejects`, and records every call it receives in `trace`.
 */
module Oss {
  import opened Php

  newtype byte = x: int | 0 <= x < 256
  type Bytes = seq<byte>

  /** One object of a listing page (`OSS\Model\ObjectInfo`). */
  datatype ObjectInfo = ObjectInfo(key: string, lastModified: string, size: int)

  /** One page of `listObjects`: common prefixes, objects and the continuation marker. */
  datatype Page = Page(prefixes: seq<string>, objects: seq<ObjectInfo>, nextMarker: string)

  /** The options array of a `listObjects` request. */
  datatype ListRequest = ListRequest(maxKeys: int, prefix: string, delimiter: string, marker: string)

  /** The arguments the `OssClient` constructor receives. */
  datatype ClientArgs = ClientArgs(
    accessId: string,
    accessSecret: string,
    endpoint: string,
    isCName: bool,
    token: Option<string>,
    proxy: Option<string>)

  /** A call the adapter makes on the client, with its arguments. */
  datatype Call =
    | SetTimeout(seconds: int)
    | SetConnectTimeout(seconds: int)
    | ListObjects(bucket: string, request: ListRequest)
    | AppendObject(bucket: string, key: string, content: Bytes, position: int, options: Bag)
    | DeleteObjects(bucket: string, keys: seq<string>)
    | CopyObject(fromBucket: string, fromKey: string, toBucket: string, toKey: string)
    | DeleteObject(bucket: string, key: string)
    | PutObjectAcl(bucket: string, key: string, acl: string)
    | GetObjectMeta(bucket: string, key: string)

  /** The exceptions an adapter operation can end with. */
  datatype Error =
    | ProviderError(call: Call)                         // an `OssException` raised by the client
    | UnableToWriteFile(location: string, reason: string)
    | OutOfFuel                                         // the listing exceeded its request budget

  datatype Result<+T> = Success(value: T) | Failure(error: Error)

  datatype Outcome = Pass | Fail(error: Error)

  /** The client's answers to listing requests, keyed by bucket and request. */
  type Pages = map<(string, ListRequest), Page>

  /** Object metadata as `getObjectMeta` returns it: lower-case header names to values. */
  type Meta = map<string, Value>

  class Client {
    const args: ClientArgs
    const pages: Pages
    const metas: map<(string, string), Meta>
    const rejects: set<Call>
    var trace: seq<Call>

    constructor (args: ClientArgs, pages: Pages, metas: map<(string, string), Meta>, rejects: set<Call>)
      ensures this.args == args && this.pages == pages && this.metas == metas && this.rejects == rejects
      ensures trace == []
    {
      this.args := args;
      this.pages := pages;
      this.metas := metas;
      this.rejects := rejects;
      trace := [];
    }

    /** How the provider answers a call that returns nothing. */
    function Answer(call: Call): Outcome
    {
      if call in rejects then Fail(ProviderError(call)) else Pass
    }

    /** How the provider answers a listing request. */
    function Listed(bucket: string, request: ListRequest): Result<Page>
    {
      if (bucket, request) in pages then Success(pages[(bucket, request)])
      else Failure(ProviderError(Call.ListObjects(bucket, request)))
    }

    method SetTimeout(seconds: int)
      modifies this
      ensures trace == old(trace) + [Call.SetTimeout(seconds)]
    {
      trace := trace + [Call.SetTimeout(seconds)];
    }

    method SetConnectTimeout(seconds: int)
      modifies this
      ensures trace == old(trace) + [Call.SetConnectTimeout(seconds)]
    {
      trace := trace + [Call.SetConnectTimeout(seconds)];
    }

    method ListObjects(bucket: string, request: ListRequest) returns (r: Result<Page>)
      modifies this
      ensures trace == old(trace) + [Call.ListObjects(bucket, request)]
      ensures r == Listed(bucket, request)
    {
      trace := trace + [Call.ListObjects(bucket, request)];
      r := Listed(bucket, request);
    }

    method AppendObject(bucket: string, key: string, content: Bytes, position: int, options: Bag)
      returns (r: Outcome)
      modifies this
      ensures trace == old(trace) + [Call.AppendObject(bucket, key, content, position, options)]
      ensures r == Answer(Call.AppendObject(bucket, key, content, position, options))
    {
      var call := Call.AppendObject(bucket, key, content, position, options);
      trace := trace + [call];
      r := Answer(call);
    }

    method DeleteObjects(bucket: string, keys: seq<string>) returns (r: Outcome)
      modifies this
      ensures trace == old(trace) + [Call.DeleteObjects(bucket, keys)]
      ensures r == Answer(Call.DeleteObjects(bucket, keys))
    {
      trace := trace + [Call.DeleteObjects(bucket, keys)];
      r := Answer(Call.DeleteObjects(bucket, keys));
    }

    method CopyObject(fromBucket: string, fromKey: string, toBucket: string, toKey: string)
      returns (r: Outcome)
      modifies this
      ensures trace == old(trace) + [Call.CopyObject(fromBucket, fromKey, toBucket, toKey)]
      ensures r == Answer(Call.CopyObject(fromBucket, fromKey, toBucket, toKey))
    {
      var call := Call.CopyObject(fromBucket, fromKey, toBucket, toKey);
      trace := trace + [call];
      r := Answer(call);
    }

    method DeleteObject(bucket: string, key: string) returns (r: Outcome)
      modifies this
      ensures trace == old(trace) + [Call.DeleteObject(bucket, key)]
      ensures r == Answer(Call.DeleteObject(bucket, key))
    {
      trace := trace + [Call.DeleteObject(bucket, key)];
      r := Answer(Call.DeleteObject(bucket, key));
    }

    method PutObjectAcl(bucket: string, key: string, acl: string) returns (r: Outcome)
      modifies this
      ensures trace == old(trace) + [Call.PutObjectAcl(bucket, key, acl)]
      ensures r == Answer(Call.PutObjectAcl(bucket, key, acl))
    {
      trace := trace + [Call.PutObjectAcl(bucket, key, acl)];
      r := Answer(Call.PutObjectAcl(bucket, key, acl));
    }

    method GetObjectMeta(bucket: string, key: string) returns (r: Result<Meta>)
      modifies this
      ensures trace == old(trace) + [Call.GetObjectMeta(bucket, key)]
      ensures r == if (bucket, key) in metas then Success(metas[(bucket, key)])
                   else Failure(ProviderError(Call.GetObjectMeta(bucket, key)))
    {
      trace := trace + [Call.GetObjectMeta(bucket, key)];
      r := if (bucket, key) in metas then Success(metas[(bucket, key)])
           else Failure(ProviderError(Call.GetObjectMeta(bucket, key)));
    }
  }
}
