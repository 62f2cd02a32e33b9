/** The rules the upload handlers apply: the size gate on a chosen file,
    the name a new blob is stored under, and the percentage shown while
    bytes are sent. */
module Upload {
  import opened Text

  /** 50 MiB: the largest file the picker accepts. */
  const MaxUploadBytes: nat := 50 * 1024 * 1024

  /** A chosen file passes the gate unless it is strictly larger than the limit. */
  predicate WithinLimit(size: nat)
  {
    size <= MaxUploadBytes
  }

  /** The blob name of an upload: `folder + "/"` when a folder was typed,
      then the upload time in milliseconds, a hyphen and the file's name. */
  function BlobName(folder: string, now: nat, fileName: string): string
  {
    (if folder != "" then folder + "/" else "") + Digits(now) + "-" + fileName
  }

  /** The name starts with the folder and a slash when there is a folder,
      and with a digit (never a slash) when there is not. */
  lemma BlobNameShape(folder: string, now: nat, fileName: string)
    ensures var name := BlobName(folder, now, fileName);
      if folder != "" then name[..|folder| + 1] == folder + "/"
      else |name| > 0 && IsDigit(name[0]) && name[0] != '/'
  {
    var name := BlobName(folder, now, fileName);
    if folder == "" {
      assert name[0] == Digits(now)[0];
    } else {
      assert name == folder + "/" + (Digits(now) + "-" + fileName);
    }
  }

  /** The name ends with "-" and the file's name, so the extension the
      classifier reads is the file's own. */
  lemma BlobNameEnding(folder: string, now: nat, fileName: string)
    ensures EndsWith(BlobName(folder, now, fileName), "-" + fileName)
  {
    var stem := (if folder != "" then folder + "/" else "") + Digits(now);
    assert BlobName(folder, now, fileName) == stem + ("-" + fileName);
    EndsWithAppend(stem, "-" + fileName);
  }

  /** For one folder and one file name, different upload times give
      different blob names. */
  lemma {:induction false} BlobNameInjective(folder: string, t1: nat, t2: nat, fileName: string)
    requires BlobName(folder, t1, fileName) == BlobName(folder, t2, fileName)
    ensures t1 == t2
  {
    var prefix := if folder != "" then folder + "/" else "";
    var n1, n2 := BlobName(folder, t1, fileName), BlobName(folder, t2, fileName);
    var d1, d2 := Digits(t1), Digits(t2);
    assert |d1| == |d2|;
    assert n1 == prefix + d1 + ("-" + fileName);
    assert n2 == prefix + d2 + ("-" + fileName);
    assert d1 == n1[|prefix|..|prefix| + |d1|];
    assert d2 == n2[|prefix|..|prefix| + |d2|];
    DigitsInjective(t1, t2);
  }

  /** What the progress bar holds: a whole percentage, or the NaN or
      Infinity that dividing by a zero file size produces. */
  datatype Progress = Shown(percent: nat) | NotFinite

  /** `Math.round(loaded / size * 100)` in exact arithmetic: the ratio
      as a percentage, rounded half up. */
  function Percent(loaded: nat, size: nat): (p: Progress)
    ensures size > 0 <==> p.Shown?
    ensures p.Shown? ==> 2 * size * p.percent <= 200 * loaded + size < 2 * size * (p.percent + 1)
  {
    if size == 0 then NotFinite else Shown((200 * loaded + size) / (2 * size))
  }

  lemma MulLeftMonotone(d: nat, x: int, y: int)
    requires d > 0 && d * x < d * y
    ensures x < y
  {
  }

  /** For any amount sent up to the whole file, the percentage lies between 0 and 100. */
  lemma PercentBounded(loaded: nat, size: nat)
    requires 0 < size && loaded <= size
    ensures 0 <= Percent(loaded, size).percent <= 100
  {
    var p := Percent(loaded, size).percent;
    assert 200 * loaded + size <= 200 * size + size;
    MulLeftMonotone(2 * size, p, 101);
  }

  /** The whole file sent shows exactly 100. */
  lemma PercentComplete(size: nat)
    requires 0 < size
    ensures Percent(size, size) == Shown(100)
  {
    var p := Percent(size, size).percent;
    MulLeftMonotone(2 * size, p, 101);
    MulLeftMonotone(2 * size, 99, p);
  }

  /** Sending more never shows a smaller percentage. */
  lemma PercentMonotone(l1: nat, l2: nat, size: nat)
    requires 0 < size && l1 <= l2
    ensures Percent(l1, size).percent <= Percent(l2, size).percent
  {
    var p1, p2 := Percent(l1, size).percent, Percent(l2, size).percent;
    assert 200 * l1 + size <= 200 * l2 + size;
    MulLeftMonotone(2 * size, p1, p2 + 1);
  }

  /** Reports that never go down and never pass the file's size give a bar
      that never goes down, stays within 0..100, and ends at 100 when the
      last report covers the whole file. */
  lemma ProgressTrace(reports: seq<nat>, size: nat)
    requires 0 < size
    requires forall i :: 0 <= i < |reports| ==> reports[i] <= size
    requires forall i, j :: 0 <= i <= j < |reports| ==> reports[i] <= reports[j]
    ensures forall i :: 0 <= i < |reports| ==> Percent(reports[i], size).percent <= 100
    ensures forall i, j :: 0 <= i <= j < |reports| ==>
      Percent(reports[i], size).percent <= Percent(reports[j], size).percent
    ensures reports != [] && reports[|reports| - 1] == size ==> Percent(reports[|reports| - 1], size) == Shown(100)
  {
    forall i | 0 <= i < |reports| ensures Percent(reports[i], size).percent <= 100 {
      PercentBounded(reports[i], size);
    }
    forall i, j | 0 <= i <= j < |reports|
      ensures Percent(reports[i], size).percent <= Percent(reports[j], size).percent
    {
      PercentMonotone(reports[i], reports[j], size);
    }
    if reports != [] && reports[|reports| - 1] == size {
      PercentComplete(size);
    }
  }
}
