/** Turning a walk over the container's listing into the records of
    `blobList`. */
module Fetch {
  import opened Records

  /** `r` is the record kept for `item`: its address, its name, its
      content length or 0, and its modification date or `now` when the
      listing gives none. */
  predicate RecordFor(cfg: Config, r: BlobRecord, item: ListedBlob, now: int)
  {
    && r.name == item.name
    && r.url == BlobUrl(cfg, item.name)
    && r.size == item.contentLength.GetOr(0)
    && r.lastModified == item.lastModified.GetOr(now)
  }

  /** One record per listed blob, in listing order. */
  predicate IngestedFrom(cfg: Config, list: seq<BlobRecord>, items: seq<ListedBlob>, now: int)
  {
    |list| == |items| && forall i :: 0 <= i < |items| ==> RecordFor(cfg, list[i], items[i], now)
  }

  /** The loop of `fetchBlobs`, pushing one record per listed blob. */
  method Ingest(cfg: Config, items: seq<ListedBlob>, now: int) returns (list: seq<BlobRecord>)
    ensures IngestedFrom(cfg, list, items, now)
  {
    list := [];
    for i := 0 to |items|
      invariant IngestedFrom(cfg, list, items[..i], now)
    {
      var blob := items[i];
      var size := if blob.contentLength.Some? then blob.contentLength.value else 0;
      var date := if blob.lastModified.Some? then blob.lastModified.value else now;
      list := list + [BlobRecord(BlobUrl(cfg, blob.name), blob.name, size, date)];
    }
  }
}
