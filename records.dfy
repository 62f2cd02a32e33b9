/** The values the catalog handles: the store's account settings, what a
    listing reports about one blob, the file a user picks, and the record
    kept in `blobList` for each listed blob. */
module Records {

  datatype Option<T> = None | Some(value: T)
  {
    function GetOr(default: T): T
    {
      match this
      case Some(v) => v
      case None => default
    }
  }

  /** The storage account name, the container name and the SAS token
      (empty, or a query string starting with "?"), read from the build's
      environment. */
  datatype Config = Config(account: string, container: string, sasToken: string)

  /** One item of `listBlobsFlat`: its name and the two properties the
      catalog reads, either of which may be absent. A date is a count of
      milliseconds since the epoch. */
  datatype ListedBlob = ListedBlob(name: string, contentLength: Option<nat>, lastModified: Option<int>)

  /** The outcome of walking a listing: the items delivered, in order, and
      whether the walk ended by throwing instead of running out of items. */
  datatype Listing = Listing(delivered: seq<ListedBlob>, failed: bool)

  /** A file chosen in the file picker. */
  datatype LocalFile = LocalFile(name: string, size: nat)

  /** One entry of `blobList`. */
  datatype BlobRecord = BlobRecord(url: string, name: string, size: nat, lastModified: int)

  /** The address of the container, up to and including the "/" that
      precedes every blob name. */
  function ContainerPrefix(cfg: Config): string
  {
    "https://" + cfg.account + ".blob.core.windows.net/" + cfg.container + "/"
  }

  /** The address of blob `name`, as the listing loop builds it. */
  function BlobUrl(cfg: Config, name: string): string
  {
    ContainerPrefix(cfg) + name + cfg.sasToken
  }
}
