/** Classification of blob names: the four lists the gallery shows
    (`categorizedFiles`, a suffix test with no dot) and the icon drawn
    beside each file (`getFileIcon`, a test on a dotted extension). Both
    ignore ASCII case. */
module Classify {
  import opened Text
  import opened Records

  datatype Category = Image | Video | Audio | Document

  /** The endings of each list, in the order the bucketing tests them. */
  function Extensions(c: Category): seq<string>
  {
    match c
    case Image => ["jpeg", "jpg", "png", "gif"]
    case Video => ["mp4", "webm", "ogg"]
    case Audio => ["mp3"]
    case Document => ["pdf", "doc", "docx", "txt"]
  }

  /** The list a file joins: the first of image, video, audio, document
      whose endings the lower-cased name ends with, or none. */
  function Bucket(name: string): Option<Category>
  {
    var n := Lower(name);
    if EndsWithAny(n, Extensions(Image)) then Some(Image)
    else if EndsWithAny(n, Extensions(Video)) then Some(Video)
    else if EndsWithAny(n, Extensions(Audio)) then Some(Audio)
    else if EndsWithAny(n, Extensions(Document)) then Some(Document)
    else None
  }

  /** The last two letters of an ending tell its list apart. */
  function ListOfTail(t: string): Option<Category>
  {
    if t in ["eg", "pg", "ng", "if"] then Some(Image)
    else if t in ["p4", "bm", "gg"] then Some(Video)
    else if t == "p3" then Some(Audio)
    else if t in ["df", "oc", "cx", "xt"] then Some(Document)
    else None
  }

  lemma TailDecides(n: string, e: string, c: Category)
    requires e in Extensions(c) && EndsWith(n, e)
    ensures |n| >= 2 && ListOfTail(n[|n| - 2..]) == Some(c)
  {
    assert n[|n| - 2..] == e[|e| - 2..];
  }

  /** No name ends with endings of two different lists, so the precedence
      of the tests never decides anything. */
  lemma {:induction false} ListsDisjoint(n: string, c1: Category, c2: Category)
    requires c1 != c2
    ensures !(EndsWithAny(n, Extensions(c1)) && EndsWithAny(n, Extensions(c2)))
  {
    if EndsWithAny(n, Extensions(c1)) && EndsWithAny(n, Extensions(c2)) {
      var e1 :| e1 in Extensions(c1) && EndsWith(n, e1);
      var e2 :| e2 in Extensions(c2) && EndsWith(n, e2);
      TailDecides(n, e1, c1);
      TailDecides(n, e2, c2);
    }
  }

  /** A file joins list `c` exactly when its lower-cased name ends with one
      of `c`'s endings. */
  lemma {:induction false} BucketIff(name: string, c: Category)
    ensures Bucket(name) == Some(c) <==> EndsWithAny(Lower(name), Extensions(c))
  {
    var n := Lower(name);
    forall c' | c' != c
      ensures !(EndsWithAny(n, Extensions(c')) && EndsWithAny(n, Extensions(c)))
    {
      ListsDisjoint(n, c', c);
    }
  }

  /** A file joins no list exactly when its name ends with no ending at all. */
  lemma {:induction false} BucketNoneIff(name: string)
    ensures Bucket(name).None? <==> forall c :: !EndsWithAny(Lower(name), Extensions(c))
  {
    if Bucket(name).None? {
      forall c ensures !EndsWithAny(Lower(name), Extensions(c)) {
        BucketIff(name, c);
      }
    }
  }

  /** Whatever precedes it, a name ending in one of `c`'s endings, in any
      ASCII case, joins list `c`: "clip.OGG" is a video, "notes-txt" a document. */
  lemma {:induction false} BucketOfEnding(stem: string, ending: string, c: Category)
    requires Lower(ending) in Extensions(c)
    ensures Bucket(stem + ending) == Some(c)
  {
    LowerAppend(stem, ending);
    EndsWithAppend(Lower(stem), Lower(ending));
    BucketIff(stem + ending, c);
  }

  /** The icon `getFileIcon` draws: 🖼, 🎬, 🎵, 📕, 📄, 📜 and 📁. */
  datatype Icon = Picture | Clapper | Note | RedBook | Page | Scroll | Folder

  function Dotted(exts: seq<string>): (r: seq<string>)
    ensures |r| == |exts| && forall i :: 0 <= i < |exts| ==> r[i] == "." + exts[i]
  {
    if exts == [] then [] else ["." + exts[0]] + Dotted(exts[1..])
  }

  /** The icon for a name: the first of the dotted extension tests it
      passes, ignoring ASCII case, or the folder icon. */
  function FileIcon(name: string): Icon
  {
    var n := Lower(name);
    if EndsWithAny(n, Dotted(Extensions(Image))) then Picture
    else if EndsWithAny(n, Dotted(Extensions(Video))) then Clapper
    else if EndsWithAny(n, Dotted(Extensions(Audio))) then Note
    else if EndsWithAny(n, Dotted(["pdf"])) then RedBook
    else if EndsWithAny(n, Dotted(["doc", "docx"])) then Page
    else if EndsWithAny(n, Dotted(["txt"])) then Scroll
    else Folder
  }

  /** The list an icon stands for. */
  function IconCategory(icon: Icon): Option<Category>
  {
    match icon
    case Picture => Some(Image)
    case Clapper => Some(Video)
    case Note => Some(Audio)
    case RedBook | Page | Scroll => Some(Document)
    case Folder => None
  }

  /** A dotted ending is also an undotted one, from the same list. */
  lemma DottedEnding(n: string, exts: seq<string>, within: seq<string>)
    requires EndsWithAny(n, Dotted(exts))
    requires forall e :: e in exts ==> e in within
    ensures EndsWithAny(n, within)
  {
    var d :| d in Dotted(exts) && EndsWith(n, d);
    var i :| 0 <= i < |exts| && Dotted(exts)[i] == d;
    assert d[1..] == exts[i];
    EndsWithTrans(n, d, exts[i]);
    assert exts[i] in within;
  }

  /** Whenever a file gets a type icon, it sits in the list that icon
      stands for. The converse fails: see `UndottedEndingHasNoIcon`. */
  lemma {:induction false} IconAgreesWithBucket(name: string)
    requires FileIcon(name) != Folder
    ensures Bucket(name) == IconCategory(FileIcon(name))
  {
    var n := Lower(name);
    var c := IconCategory(FileIcon(name)).value;
    BucketIff(name, c);
    match FileIcon(name)
    case Picture => DottedEnding(n, Extensions(Image), Extensions(Image));
    case Clapper => DottedEnding(n, Extensions(Video), Extensions(Video));
    case Note => DottedEnding(n, Extensions(Audio), Extensions(Audio));
    case RedBook => DottedEnding(n, ["pdf"], Extensions(Document));
    case Page => DottedEnding(n, ["doc", "docx"], Extensions(Document));
    case Scroll => DottedEnding(n, ["txt"], Extensions(Document));
  }

  lemma NoDotNoDotted(n: string, exts: seq<string>)
    requires '.' !in n
    ensures !EndsWithAny(n, Dotted(exts))
  {
    forall d | d in Dotted(exts) ensures !EndsWith(n, d) {
      var i :| 0 <= i < |exts| && Dotted(exts)[i] == d;
      assert d[0] == '.';
      assert |d| <= |n| ==> n[|n| - |d|..][0] != d[0];
    }
  }

  /** A name without a dot always gets the folder icon. */
  lemma NoDotNoIcon(name: string)
    requires '.' !in name
    ensures FileIcon(name) == Folder
  {
    var n := Lower(name);
    assert '.' !in n;
    NoDotNoDotted(n, Extensions(Image));
    NoDotNoDotted(n, Extensions(Video));
    NoDotNoDotted(n, Extensions(Audio));
    NoDotNoDotted(n, ["pdf"]);
    NoDotNoDotted(n, ["doc", "docx"]);
    NoDotNoDotted(n, ["txt"]);
  }

  /** "photopng" is listed with the images but drawn with the folder icon. */
  lemma UndottedEndingHasNoIcon()
    ensures Bucket("photopng") == Some(Image)
    ensures FileIcon("photopng") == Folder
  {
    assert Lower("png") == "png";
    BucketOfEnding("photo", "png", Image);
    assert "photo" + "png" == "photopng";
    NoDotNoIcon("photopng");
  }
}
