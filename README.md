# Media drive catalog — a Dafny model

The project is a single-page media drive backed by one Azure Blob Storage
container. `src/App.jsx` does the following:

- It lists the container's blobs into a catalog of records (url, name, size, last-modified time).
- It accepts a chosen file only when the file is at most 50 MiB.
- It uploads the file under a time-stamped name, optionally inside a folder prefix, and shows a percentage while the bytes are sent.
- It deletes a blob by the name it reads back out of the blob's URL.
- It filters the catalog by a case-insensitive substring of the name.
- It sorts the result by size or by date, ascending or descending. Unknown options mean "date-desc".
- It sorts every file into four lists (images, videos, audios, documents) by the ending of its lower-cased name. It draws an icon per file from its dotted extension.

The model follows the code's own shape:

- The catalog state is a class, `App.MediaDrive`. Its fields are the React state variables, and its handlers are methods with `modifies` frames.
- The pure pieces (filtering, classification, naming, percentages, URL parsing) are functions with lemmas.
- The listing loop and the forEach bucketing are methods with loops.
- The comparator sort is an in-place insertion sort on an `array`. It is proved equal to a stable insertion-sort specification (`Query.SortSpec`).

Stability matters for correctness. The source's comparators return 0 for equal keys, and `Array.prototype.sort` is stable. Equal-keyed files therefore keep their filter order. The model proves its sort is sorted, a permutation and tie-preserving. It also proves that these three properties determine the result uniquely.

Some promises made about the system are not in the code, and the model follows the code:

- There is no "other" category. A file matching no list appears in none of them.
- There is no secondary tie-break key.
- There is no optimistic insertion into the list after an upload.
- There is no monotonic counter in blob names. The name uses the clock value alone.

Deleting a blob that was uploaded into a folder sends the wrong name to the store. The name is read back as the URL's last path segment, so the folder prefix is lost (see "## Findings"). `App.MediaDrive.HandleDeleteBlob` models the code as written. `Deletion.BlobNameFromUrl` is the reading evidently intended. It is proved to recover every blob name without "?" when the SAS token is empty or starts with "?".

Modules, one per file:

| file | module | contents |
|---|---|---|
| seqs.dfy | Seqs | order-preserving selection `Keep`, `Subsequence` |
| text.dfy | Text | ASCII lower-casing, suffix and substring tests, the two `split` idioms, decimal digits |
| records.dfy | Records | the catalog record, the listing, the configuration, the blob URL |
| classify.dfy | Classify | the four lists and the icon |
| query.dfy | Query | search filter, sort option, comparator, stable sort, in-place sort, bucketing loop |
| upload.dfy | Upload | size gate, blob name, progress percentage |
| fetch.dfy | Fetch | the listing loop |
| deletion.dfy | Deletion | the name read back from a URL |
| app.dfy | App | the `MediaDrive` state and handlers |

## Model

| member | source | states |
|---|---|---|
| App.MediaDrive.constructor | src/App.jsx:14-20 | Initial state: nothing selected, empty catalog, progress 0, empty search and folder, sort option "date-desc". The state invariant `Valid` holds: any selected file is within 50 MiB. |
| Fetch.Ingest | src/App.jsx:27-36 | One record per listed blob, in listing order. Each has the blob's name and the URL built from account, container, name and SAS token. A missing or zero length gives size 0. A missing date gives the time of the fetch. |
| App.MediaDrive.FetchBlobs | src/App.jsx:27-38 | A failed listing leaves the catalog unchanged. A completed one replaces it with exactly the ingested records. Nothing else changes. |
| App.MediaDrive.HandleFileChange | src/App.jsx:40-47 | Alerts exactly when a file was chosen and it exceeds 50 MiB, and then keeps the old selection. Otherwise the selection becomes the chosen file, or none. So a selected file is never over the limit (`Valid` is kept). |
| Upload.BlobName | src/App.jsx:52 | The name an upload is stored under: the folder and "/" when a folder is given, then the upload time in decimal, "-" and the file's name. Its properties are stated by `Upload.BlobNameShape`, `Upload.BlobNameEnding` and `Upload.BlobNameInjective`. |
| Upload.BlobNameShape | src/App.jsx:52 | With a folder, the blob name starts with the folder and "/". Without one, it starts with a digit, never "/". |
| Upload.BlobNameEnding | src/App.jsx:52 | The blob name ends with "-" and the file's own name. |
| Upload.BlobNameInjective | src/App.jsx:52 | Same folder and file name, different upload times: different blob names. |
| Text.DigitsRoundTrip | src/App.jsx:52 | The decimal rendering of the timestamp reads back as the same number. |
| Text.Digits | src/App.jsx:52 | The rendered timestamp is non-empty and made of decimal digits only. It has no leading zero: it starts with "0" only when it is "0". |
| Upload.Percent | src/App.jsx:59 | A zero-size file gives a non-finite value. Otherwise the value is loaded/size*100 rounded half up, as a two-sided bound. |
| Upload.PercentBounded | src/App.jsx:59 | For any amount sent up to the file size, the percentage is within 0..100. |
| Upload.PercentComplete | src/App.jsx:59 | The whole file sent shows exactly 100. |
| Upload.PercentMonotone | src/App.jsx:59 | More bytes sent never shows a smaller percentage. |
| Upload.ProgressTrace | src/App.jsx:57-62 | Non-decreasing reports within the size give a bar that stays within 0..100 and never goes down. It ends at 100 when the last report is the full size. |
| App.MediaDrive.HandleUpload | src/App.jsx:49-67 | With nothing selected, nothing changes. Otherwise the blob name is built from folder, time and file name, and the file sent is within 50 MiB because the selection passed the gate. Every progress report is shown as its percentage. After a stored upload, the selection is cleared, progress resets to 0 and the catalog is re-fetched. After a failed one, the selection and catalog are kept and the bar keeps its last value. |
| Text.AfterLast | src/App.jsx:70 | `split(c).pop()`: the longest suffix free of `c`, preceded by `c` when shorter than the input. |
| Text.BeforeFirst | src/App.jsx:70 | `split(c)[0]`: the longest prefix free of `c`, followed by `c` when shorter than the input. |
| Deletion.NameFromUrl | src/App.jsx:70 | The name read back from a URL holds no "/" and no "?". |
| Deletion.NameFromUrlRoundTrip | src/App.jsx:70 | Take a catalog URL whose blob name has no "/" or "?", and whose SAS token has no "/" and is empty or starts with "?". The name read back is the blob's name. |
| Deletion.NameFromUrlDropsFolder | src/App.jsx:70 | For a blob "folder/base", where base has no "/" or "?" and the SAS token has no "/" and is empty or starts with "?", only base is read back. |
| Deletion.UploadedIntoFolderDeletesOtherName | src/App.jsx:69-74 | Take a blob uploaded into a non-empty folder, with a file name without "/" or "?", and a SAS token with no "/" that is empty or starts with "?". It is deleted under its name without the folder, which differs from the name it was stored under. |
| App.MediaDrive.HandleDeleteBlob | src/App.jsx:69-74 | The store is asked to delete the name read back from the URL, undecoded (see "## Left out"). When that succeeds, the catalog is re-fetched. Otherwise it is kept. |
| Deletion.BlobNameFromUrl | src/App.jsx:70 | The intended reading, not the code's: the name is defined exactly when the URL starts with the container's prefix. It is the text after that prefix, up to the first "?", folders included. |
| Deletion.BlobNameFromUrlRoundTrip | src/App.jsx:70 | With the intended reading, every blob name without "?" is recovered whole from its catalog URL when the SAS token is empty or starts with "?". |
| Deletion.FolderUploadDeletedByFullName | src/App.jsx:52 | With the intended reading, a file uploaded into a folder is deleted under the name it was stored under. This holds when neither the folder nor the file name contains "?" and the SAS token is empty or starts with "?". |
| Classify.FileIcon | src/App.jsx:93-101 | `getFileIcon`: the first of the six dotted, case-insensitive extension tests the name passes, or the folder icon. Its properties are stated by `Classify.NoDotNoIcon` and `Classify.IconAgreesWithBucket`. |
| Classify.NoDotNoIcon | src/App.jsx:93-101 | A name without a dot always gets the folder icon. |
| Classify.IconAgreesWithBucket | src/App.jsx:93-101 | Whenever a file gets a type icon, it is in the list that icon stands for (the lists are at lines 132-135). |
| Classify.UndottedEndingHasNoIcon | src/App.jsx:93-101 | The converse fails: "photopng" is listed as an image but drawn with the folder icon. |
| Query.ParseSortOption | src/App.jsx:104-114 | The three named options select their comparator. Every other string, "date-desc" included, selects date descending. |
| Query.Compare | src/App.jsx:105-113 | Each comparator's sign is the difference of the sort keys: size or time, negated for the descending options. |
| Query.SortedMeaning | src/App.jsx:103-115 | Sorted means non-decreasing key for the ascending options and non-increasing key for the descending ones. |
| Query.SortSpecCorrect | src/App.jsx:103-115 | The stable sort is a permutation of its input and is sorted. Within every key, it keeps the input's order. |
| Query.StableSortUnique | src/App.jsx:103-115 | Any sorted order that keeps each key's input order is exactly the stable sort. This is the result `Array.prototype.sort` must give. |
| Query.SortInPlace | src/App.jsx:103-115 | The array sorted in place ends as the stable sort of its old contents, hence a sorted permutation. |
| Query.InsertInto | src/App.jsx:103-115 | One insertion step: an element is inserted into the sorted prefix after all elements whose rank is not greater than its own. The rank is the key for the ascending options and the negated key for the descending ones. The rest of the array is unchanged. |
| Query.Filter | src/App.jsx:118-120 | `blobList.filter(...)`: the records whose lower-cased name contains the lower-cased search term, in catalog order. Its properties are stated by `Query.FilterExact` and `Query.FilterEmptyTerm`. |
| Query.FilterExact | src/App.jsx:117-121 | The filter keeps input order. It keeps every copy of a record whose lower-cased name contains the lower-cased term, and drops every other record. |
| Query.FilterEmptyTerm | src/App.jsx:117-121 | An empty search term keeps the whole catalog. |
| Query.FilteredList | src/App.jsx:117-121 | The displayed list is the stable sort, under the selected option, of the filtered catalog. |
| Classify.Bucket | src/App.jsx:131-135 | The if/else chain of the bucketing: the first of image, video, audio and document whose endings the lower-cased name ends with, or none. Its properties are stated by `Classify.BucketIff` and `Classify.ListsDisjoint`. |
| Classify.ListsDisjoint | src/App.jsx:132-135 | No name ends with endings of two different lists, so the order of the tests never matters. |
| Classify.BucketIff | src/App.jsx:130-136 | A file joins a list exactly when its lower-cased name ends with one of that list's endings. |
| Classify.BucketNoneIff | src/App.jsx:130-136 | A file joins no list exactly when its name ends with none of the endings. |
| Classify.BucketOfEnding | src/App.jsx:132-135 | Whatever comes before it, a name ending in a list's ending, in any ASCII case, joins that list. A dot is not needed. |
| Query.Categorize | src/App.jsx:130-136 | Each list holds exactly the files of its category, in display order. |
| Query.CategoriesPartition | src/App.jsx:130-136 | Every file is in exactly one list, with all its copies, when its name has a known ending, and in none otherwise. |
| App.MediaDrive.CategorizedFiles | src/App.jsx:117-136 | The four lists split the filtered and sorted catalog by category, keeping display order. The state is unchanged. |

## Left out

- Azure SDK calls are not modelled as code:
  - `listBlobsFlat` is a `Listing` value: the items it yields, and whether it failed part-way.
  - `uploadBrowserData` is a sequence of progress reports and whether the upload was stored.
  - `deleteIfExists` is a success flag.
- A failed upload or delete rejects the handler's promise in the source. The model stops the handler there.
- Timing is not modelled. The re-fetch after upload and delete is not awaited in the source, so it may finish after later user actions. The model applies its result at once.
- Concurrent handler runs, React's batching of state updates and re-rendering are not modelled.
- `Date.now()` and `new Date()` are parameters. A single fetch uses one time for every blob without a date.
- App.MediaDrive.HandleDeleteBlob: `decodeURIComponent` is not modelled, so the claim holds only for names without "%". Two cases differ from the source:
  - A name with valid "%" escapes is sent to the store undecoded.
  - A "%" that starts no valid escape, as in "50%off.png", makes the source throw `URIError`. The source then deletes nothing and skips the re-fetch. The model deletes "50%off.png" and re-fetches.
- `toLowerCase` is modelled on ASCII letters only. Other scripts are left unchanged.
- Upload.Percent: computes in exact arithmetic, not IEEE doubles. A ratio whose floating-point product lands on the other side of a .5 boundary can round differently in the source.
- `formatSize` (a logarithm and floating-point formatting) is not modelled.
- The JSX rendering is not modelled:
  - the grid/list view toggle;
  - the `renderFiles` previews;
  - `handleDownload`, which builds and clicks a link element in the document.
- The input bindings that write `searchTerm`, `folder` and `sortOption` are not modelled. These are public fields of `MediaDrive`.
- App.MediaDrive.constructor: the first fetch that `useEffect` runs on mount is not part of the constructor. The caller performs it with `FetchBlobs`, and until then the catalog is empty, as on the first render.
- The alert's message text is not modelled. The alert is the boolean result of `HandleFileChange`.
- The upload function in `azure-functions-backend/uploadMedia/index.js` is not part of this model. It is a separate HTTP handler over a multipart parser and the SDK.

## Findings

| source | as written | input that shows it | evidently intended | confidence | as-written member | corrected member |
|---|---|---|---|---|---|---|
| src/App.jsx:70 | Reads the blob to delete as the URL's last "/" segment, cut at "?" | Folder "photos", file "cat.png", time 7: stored as "photos/7-cat.png" at line 52, but deletion asks the store for "7-cat.png" | The whole blob name: the URL's text after the container's prefix, up to "?" | not executed; high | Deletion.UploadedIntoFolderDeletesOtherName | Deletion.BlobNameFromUrlRoundTrip |
