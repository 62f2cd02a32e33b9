/** The state of the media drive page and the handlers that change it. */
module App {
  import opened Records
  import opened Upload
  import opened Fetch
  import opened Deletion
  import opened Seqs
  import opened Classify
  import opened Query

  class MediaDrive {
    /** Account, container and SAS token, fixed at start-up. */
    const config: Config
    var selectedFile: Option<LocalFile>
    var blobList: seq<BlobRecord>
    /** The search box, the folder box and the sort selector; the page's
        inputs write these fields directly. */
    var searchTerm: string
    var folder: string
    var sortOption: string
    var uploadProgress: Progress

    /** The selection always passes the size gate: only `HandleFileChange`
        sets it, behind the gate, and `HandleUpload` only clears it. */
    ghost predicate Valid()
      reads this
    {
      selectedFile.Some? ==> WithinLimit(selectedFile.value.size)
    }

    constructor (config: Config)
      ensures this.config == config
      ensures selectedFile == None && blobList == [] && uploadProgress == Shown(0)
      ensures searchTerm == "" && folder == "" && sortOption == "date-desc"
      ensures Valid()
    {
      this.config := config;
      selectedFile := None;
      blobList := [];
      searchTerm := "";
      folder := "";
      sortOption := "date-desc";
      uploadProgress := Shown(0);
    }

    /** `fetchBlobs`: walks the listing into a fresh list and installs it
        only when the walk completes, dropping every record that is no
        longer listed; a walk that throws leaves `blobList` as it was. */
    method FetchBlobs(listing: Listing, now: int)
      requires Valid()
      modifies this`blobList
      ensures Valid()
      ensures listing.failed ==> blobList == old(blobList)
      ensures !listing.failed ==> IngestedFrom(config, blobList, listing.delivered, now)
    {
      var list := Ingest(config, listing.delivered, now);
      if !listing.failed {
        blobList := list;
      }
    }

    /** `handleFileChange`: a file over the limit raises an alert and
        leaves the selection alone; any other choice, including choosing
        nothing, replaces it. */
    method HandleFileChange(chosen: Option<LocalFile>) returns (alerted: bool)
      requires Valid()
      modifies this`selectedFile
      ensures Valid()
      ensures alerted <==> chosen.Some? && !WithinLimit(chosen.value.size)
      ensures selectedFile == if alerted then old(selectedFile) else chosen
    {
      if chosen.Some? && chosen.value.size > 50 * 1024 * 1024 {
        return true;
      }
      selectedFile := chosen;
      return false;
    }

    /** `handleUpload`. With no file selected nothing happens. Otherwise
        the file is sent under `BlobName(folder, now, name)`, each progress
        report sets the bar, and `shown` is the sequence of values it took.
        When the store accepts the file the selection and the bar are
        cleared and the listing is fetched again; when it throws, the
        handler stops where it is. */
    method HandleUpload(now: nat, reports: seq<nat>, stored: bool, relisting: Listing, listedAt: int)
      returns (blobName: Option<string>, shown: seq<Progress>)
      requires Valid()
      modifies this`selectedFile, this`uploadProgress, this`blobList
      ensures Valid()
      ensures blobName.Some? ==> old(selectedFile).Some? && WithinLimit(old(selectedFile).value.size)
      ensures old(selectedFile).None? ==>
        && blobName.None? && shown == []
        && selectedFile == old(selectedFile) && uploadProgress == old(uploadProgress) && blobList == old(blobList)
      ensures old(selectedFile).Some? ==>
        var file := old(selectedFile).value;
        && blobName == Some(BlobName(folder, now, file.name))
        && |shown| == |reports|
        && (forall i :: 0 <= i < |reports| ==> shown[i] == Percent(reports[i], file.size))
      ensures old(selectedFile).Some? && stored ==>
        && selectedFile.None? && uploadProgress == Shown(0)
        && (relisting.failed ==> blobList == old(blobList))
        && (!relisting.failed ==> IngestedFrom(config, blobList, relisting.delivered, listedAt))
      ensures old(selectedFile).Some? && !stored ==>
        && selectedFile == old(selectedFile) && blobList == old(blobList)
        && uploadProgress == if shown == [] then Shown(0) else shown[|shown| - 1]
    {
      if selectedFile.None? {
        return None, [];
      }
      var file := selectedFile.value;
      blobName := Some(BlobName(folder, now, file.name));
      uploadProgress := Shown(0);
      shown := [];
      for i := 0 to |reports|
        invariant |shown| == i
        invariant forall k :: 0 <= k < i ==> shown[k] == Percent(reports[k], file.size)
        invariant uploadProgress == if shown == [] then Shown(0) else shown[|shown| - 1]
        invariant selectedFile == old(selectedFile) && blobList == old(blobList)
      {
        var percent := Percent(reports[i], file.size);
        uploadProgress := percent;
        shown := shown + [percent];
      }
      if stored {
        selectedFile := None;
        uploadProgress := Shown(0);
        FetchBlobs(relisting, listedAt);
      }
    }

    /** `handleDeleteBlob`: deletes the blob named by the address's last
        segment and, once the store answers, fetches the listing again. */
    method HandleDeleteBlob(url: string, storeOk: bool, relisting: Listing, listedAt: int) returns (target: string)
      requires Valid()
      modifies this`blobList
      ensures Valid()
      ensures target == NameFromUrl(url)
      ensures !storeOk || relisting.failed ==> blobList == old(blobList)
      ensures storeOk && !relisting.failed ==> IngestedFrom(config, blobList, relisting.delivered, listedAt)
    {
      target := NameFromUrl(url);
      if storeOk {
        FetchBlobs(relisting, listedAt);
      }
    }

    /** `categorizedFiles`: the search and the sort applied to a copy of
        `blobList`, split into the four lists. Nothing is modified, so
        `blobList` keeps its order. */
    method CategorizedFiles()
      returns (images: seq<BlobRecord>, videos: seq<BlobRecord>, audios: seq<BlobRecord>, documents: seq<BlobRecord>)
      ensures var shownList := SortSpec(ParseSortOption(sortOption), Filter(blobList, searchTerm));
        && images == Keep(shownList, InCategory(Image))
        && videos == Keep(shownList, InCategory(Video))
        && audios == Keep(shownList, InCategory(Audio))
        && documents == Keep(shownList, InCategory(Document))
    {
      var filteredList := FilteredList(blobList, searchTerm, sortOption);
      images, videos, audios, documents := Categorize(filteredList);
    }
  }
}
