/** Recovering the blob to delete from the address a gallery item carries. */
module Deletion {
  import opened Text
  import opened Records
  import opened Upload

  /** `url.split("/").pop().split("?")[0]`: the last path segment of the
      address, without its query string. */
  function NameFromUrl(url: string): (name: string)
    ensures '/' !in name && '?' !in name
    ensures |name| <= |url|
  {
    BeforeFirst(AfterLast(url, '/'), '?')
  }

  /** The address a listing builds for a blob whose name holds no "/" or
      "?" gives that name back, when the SAS token is empty or a query
      string without "/". */
  lemma {:induction false} NameFromUrlRoundTrip(cfg: Config, name: string)
    requires '/' !in name && '?' !in name
    requires '/' !in cfg.sasToken && (cfg.sasToken == [] || cfg.sasToken[0] == '?')
    ensures NameFromUrl(BlobUrl(cfg, name)) == name
  {
    var prefix := ContainerPrefix(cfg)[..|ContainerPrefix(cfg)| - 1];
    assert ContainerPrefix(cfg) == prefix + ['/'];
    assert BlobUrl(cfg, name) == prefix + ['/'] + (name + cfg.sasToken);
    AfterLastOf(prefix, '/', name + cfg.sasToken);
    BeforeFirstOf(name, '?', cfg.sasToken);
  }

  /** A blob stored under a folder is addressed by its last segment only:
      the folder part of its name is lost. */
  lemma {:induction false} NameFromUrlDropsFolder(cfg: Config, folder: string, base: string)
    requires '/' !in base && '?' !in base
    requires '/' !in cfg.sasToken && (cfg.sasToken == [] || cfg.sasToken[0] == '?')
    ensures NameFromUrl(BlobUrl(cfg, folder + "/" + base)) == base
  {
    var prefix := ContainerPrefix(cfg) + folder;
    assert BlobUrl(cfg, folder + "/" + base) == prefix + ['/'] + (base + cfg.sasToken);
    AfterLastOf(prefix, '/', base + cfg.sasToken);
    BeforeFirstOf(base, '?', cfg.sasToken);
  }

  /** So deleting a file uploaded into a folder asks the store for a
      different name from the one it was uploaded under. */
  lemma UploadedIntoFolderDeletesOtherName(cfg: Config, folder: string, now: nat, fileName: string)
    requires folder != "" && '/' !in fileName && '?' !in fileName
    requires '/' !in cfg.sasToken && (cfg.sasToken == [] || cfg.sasToken[0] == '?')
    ensures NameFromUrl(BlobUrl(cfg, BlobName(folder, now, fileName))) == Digits(now) + "-" + fileName
    ensures NameFromUrl(BlobUrl(cfg, BlobName(folder, now, fileName))) != BlobName(folder, now, fileName)
  {
    var base := Digits(now) + "-" + fileName;
    assert BlobName(folder, now, fileName) == folder + "/" + base;
    assert '/' !in Digits(now);
    NameFromUrlDropsFolder(cfg, folder, base);
  }

  /** The whole blob name an address carries: everything after the
      container's prefix, up to the query string. Folder segments are
      kept. `None` for an address outside the container. */
  function BlobNameFromUrl(cfg: Config, url: string): (name: Option<string>)
    ensures name.Some? <==> |ContainerPrefix(cfg)| <= |url| && url[..|ContainerPrefix(cfg)|] == ContainerPrefix(cfg)
    ensures name.Some? ==>
      && '?' !in name.value
      && var rest := url[|ContainerPrefix(cfg)|..];
         |name.value| <= |rest| && rest[..|name.value|] == name.value
         && (|name.value| == |rest| || rest[|name.value|] == '?')
  {
    var prefix := ContainerPrefix(cfg);
    if |prefix| <= |url| && url[..|prefix|] == prefix then Some(BeforeFirst(url[|prefix|..], '?')) else None
  }

  /** Every blob name without "?", folders included, is read back whole
      from the address a listing builds for it. */
  lemma BlobNameFromUrlRoundTrip(cfg: Config, name: string)
    requires '?' !in name
    requires cfg.sasToken == [] || cfg.sasToken[0] == '?'
    ensures BlobNameFromUrl(cfg, BlobUrl(cfg, name)) == Some(name)
  {
    var prefix := ContainerPrefix(cfg);
    var url := BlobUrl(cfg, name);
    assert url == prefix + (name + cfg.sasToken);
    assert url[..|prefix|] == prefix && url[|prefix|..] == name + cfg.sasToken;
    BeforeFirstOf(name, '?', cfg.sasToken);
  }

  /** With that reading, deleting a file uploaded into a folder asks the
      store for the name it was uploaded under. */
  lemma FolderUploadDeletedByFullName(cfg: Config, folder: string, now: nat, fileName: string)
    requires '?' !in folder && '?' !in fileName
    requires cfg.sasToken == [] || cfg.sasToken[0] == '?'
    ensures BlobNameFromUrl(cfg, BlobUrl(cfg, BlobName(folder, now, fileName))) == Some(BlobName(folder, now, fileName))
  {
    var name := BlobName(folder, now, fileName);
    var d := Digits(now);
    assert name == (if folder != "" then folder + "/" else "") + d + "-" + fileName;
    assert '?' !in d by {
      forall i | 0 <= i < |d| ensures d[i] != '?' {
        assert IsDigit(d[i]);
      }
    }
    BlobNameFromUrlRoundTrip(cfg, name);
  }
}
