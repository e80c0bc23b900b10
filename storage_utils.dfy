// Storage statistics over a list of stored files, and the classification of a
// file by its name's extension and of a type by its icon.

module StorageUtils {
  import opened Options
  import opened Text

  datatype FileType = Document | Image | Pdf | Spreadsheet | Other
  datatype Category = Policy | Claim | Payment | Identification | Communication | OtherCategory
  datatype SyncStatus = Synced | Syncing | Failed | Pending

  datatype StorageFile = StorageFile(
    id: string, name: string, key: string, fileType: FileType, size: nat, url: string,
    customerId: Option<string>, category: Category, uploadedAt: string, lastModified: string,
    syncStatus: SyncStatus, tags: seq<string>)

  datatype StorageStats = StorageStats(
    totalFiles: nat, totalSize: nat, usedStorage: nat, availableStorage: nat,
    syncedFiles: nat, pendingSync: nat, failedSync: nat)

  /** The fixed 10 GiB quota. */
  const AvailableStorage: nat := 10 * 1024 * 1024 * 1024

  // ---------------------------------------------------------------------------
  // Sums over the file list

  /** What is added up per file: its size, or 1 when its status is in a set. */
  datatype Measure = Size | InStatus(statuses: set<SyncStatus>)

  function Weight(m: Measure, f: StorageFile): nat {
    match m
    case Size => f.size
    case InStatus(s) => if f.syncStatus in s then 1 else 0
  }

  function Sum(files: seq<StorageFile>, m: Measure): nat
    decreases |files|
  {
    if files == [] then 0 else Weight(m, files[0]) + Sum(files[1..], m)
  }

  /** `files.reduce((sum, file) => sum + file.size, 0)` */
  function TotalSize(files: seq<StorageFile>): nat {
    Sum(files, Size)
  }

  /** `files.filter((f) => statuses contains f.syncStatus).length` */
  function CountStatus(files: seq<StorageFile>, statuses: set<SyncStatus>): (n: nat)
    ensures n <= |files|
  {
    SumCountBound(files, statuses);
    Sum(files, InStatus(statuses))
  }

  lemma {:induction false} SumCountBound(files: seq<StorageFile>, statuses: set<SyncStatus>)
    ensures Sum(files, InStatus(statuses)) <= |files|
    decreases |files|
  {
    if files != [] { SumCountBound(files[1..], statuses); }
  }

  lemma {:induction false} SumAppend(a: seq<StorageFile>, b: seq<StorageFile>, m: Measure)
    ensures Sum(a + b, m) == Sum(a, m) + Sum(b, m)
    decreases |a|
  {
    if a == [] {
      assert a + b == b;
    } else {
      SumAppend(a[1..], b, m);
      assert (a + b)[0] == a[0] && (a + b)[1..] == a[1..] + b;
    }
  }

  lemma SumRemove(b: seq<StorageFile>, j: nat, m: Measure)
    requires j < |b|
    ensures Sum(b, m) == Weight(m, b[j]) + Sum(b[..j] + b[j + 1..], m)
  {
    assert b == b[..j] + [b[j]] + b[j + 1..];
    SumAppend(b[..j] + [b[j]], b[j + 1..], m);
    SumAppend(b[..j], [b[j]], m);
    SumAppend(b[..j], b[j + 1..], m);
    assert Sum([b[j]], m) == Weight(m, b[j]);
  }

  lemma MultisetRemove(a: seq<StorageFile>, b: seq<StorageFile>, j: nat)
    requires multiset(a) == multiset(b) && a != [] && j < |b| && b[j] == a[0]
    ensures multiset(a[1..]) == multiset(b[..j] + b[j + 1..])
  {
    assert b == b[..j] + [b[j]] + b[j + 1..];
    assert a == [a[0]] + a[1..];
    assert multiset(a[1..]) == multiset(a) - multiset{a[0]};
    assert multiset(b[..j] + b[j + 1..]) == multiset(b) - multiset{b[j]};
  }

  /** A sum does not depend on the order of the files. */
  lemma {:induction false} SumPermutation(a: seq<StorageFile>, b: seq<StorageFile>, m: Measure)
    requires multiset(a) == multiset(b)
    ensures Sum(a, m) == Sum(b, m)
    decreases |a|
  {
    if a == [] {
      assert |b| == |multiset(b)| == 0;
    } else {
      assert a[0] in multiset(b);
      var j :| 0 <= j < |b| && b[j] == a[0];
      MultisetRemove(a, b, j);
      SumPermutation(a[1..], b[..j] + b[j + 1..], m);
      SumRemove(b, j, m);
    }
  }

  /** Every file has exactly one of the four statuses; "pending" and "syncing" are
      counted together. */
  lemma {:induction false} StatusesPartition(files: seq<StorageFile>)
    ensures CountStatus(files, {Synced}) + CountStatus(files, {Pending, Syncing})
            + CountStatus(files, {Failed}) == |files|
    decreases |files|
  {
    if files != [] {
      StatusesPartition(files[1..]);
      var f := files[0];
      assert CountStatus(files, {Synced}) == Weight(InStatus({Synced}), f) + CountStatus(files[1..], {Synced});
      assert CountStatus(files, {Pending, Syncing})
          == Weight(InStatus({Pending, Syncing}), f) + CountStatus(files[1..], {Pending, Syncing});
      assert CountStatus(files, {Failed}) == Weight(InStatus({Failed}), f) + CountStatus(files[1..], {Failed});
      match f.syncStatus
      case Synced =>
      case Pending =>
      case Syncing =>
      case Failed =>
    }
  }

  // ---------------------------------------------------------------------------
  // calculateStorageStats

  function CalculateStorageStats(files: seq<StorageFile>): (r: StorageStats)
    ensures r.totalFiles == |files|
    ensures r.totalSize == r.usedStorage == TotalSize(files)
    ensures r.availableStorage == 10737418240
    ensures r.syncedFiles + r.pendingSync + r.failedSync == r.totalFiles
    ensures files == [] ==> r == StorageStats(0, 0, 0, 10737418240, 0, 0, 0)
  {
    StatusesPartition(files);
    var totalSize := TotalSize(files);
    StorageStats(|files|, totalSize, totalSize, AvailableStorage,
                 CountStatus(files, {Synced}), CountStatus(files, {Pending, Syncing}),
                 CountStatus(files, {Failed}))
  }

  /** The statistics do not depend on the order of the files. */
  lemma StatsPermutation(a: seq<StorageFile>, b: seq<StorageFile>)
    requires multiset(a) == multiset(b)
    ensures CalculateStorageStats(a) == CalculateStorageStats(b)
  {
    assert |a| == |multiset(a)| == |multiset(b)| == |b|;
    SumPermutation(a, b, Size);
    SumPermutation(a, b, InStatus({Synced}));
    SumPermutation(a, b, InStatus({Pending, Syncing}));
    SumPermutation(a, b, InStatus({Failed}));
  }

  /** Adding a file adds its size and one to the count of its status. */
  lemma StatsAppend(files: seq<StorageFile>, f: StorageFile)
    ensures CalculateStorageStats(files + [f]).totalSize == CalculateStorageStats(files).totalSize + f.size
    ensures CalculateStorageStats(files + [f]).failedSync
            == CalculateStorageStats(files).failedSync + (if f.syncStatus == Failed then 1 else 0)
    ensures CalculateStorageStats(files + [f]).syncedFiles
            == CalculateStorageStats(files).syncedFiles + (if f.syncStatus == Synced then 1 else 0)
  {
    SumAppend(files, [f], Size);
    SumAppend(files, [f], InStatus({Failed}));
    SumAppend(files, [f], InStatus({Synced}));
  }

  // ---------------------------------------------------------------------------
  // getFileType: `filename.split(".").pop()?.toLowerCase()` then a switch

  function Last(parts: seq<string>): string
    requires parts != []
  {
    parts[|parts| - 1]
  }

  /** The lower-cased text after the last dot; the whole name when it has no dot. */
  function Extension(filename: string): string {
    Lower(Last(Split(filename, '.')))
  }

  function Classify(extension: string): FileType {
    match extension
    case "pdf" => Pdf
    case "jpg" => Image
    case "jpeg" => Image
    case "png" => Image
    case "gif" => Image
    case "doc" => Document
    case "docx" => Document
    case "xls" => Spreadsheet
    case "xlsx" => Spreadsheet
    case _ => Other
  }

  function GetFileType(filename: string): (t: FileType)
    ensures t == Pdf <==> Extension(filename) == "pdf"
    ensures t == Image <==> Extension(filename) in {"jpg", "jpeg", "png", "gif"}
    ensures t == Document <==> Extension(filename) in {"doc", "docx"}
    ensures t == Spreadsheet <==> Extension(filename) in {"xls", "xlsx"}
  {
    Classify(Extension(filename))
  }

  lemma {:induction false} LastSplitStep(s: string, sep: char)
    requires sep in s
    ensures Last(Split(s, sep)) == Last(Split(s[FirstIndex(s, sep) + 1..], sep))
  {
    var i := FirstIndex(s, sep);
    var rest := Split(s[i + 1..], sep);
    assert Split(s, sep) == [s[..i]] + rest;
    LastCons(s[..i], rest);
  }

  lemma LastCons(x: string, rest: seq<string>)
    requires rest != []
    ensures Last([x] + rest) == Last(rest)
  {
  }

  /** The last piece is the text after the last separator. */
  lemma {:induction false} LastSplitAfterIndex(s: string, sep: char, j: nat)
    requires j < |s| && s[j] == sep && sep !in s[j + 1..]
    ensures Last(Split(s, sep)) == s[j + 1..]
    decreases |s|
  {
    var i := FirstIndex(s, sep);
    LastSplitStep(s, sep);
    if i == j {
      SplitNone(s[j + 1..], sep);
    } else {
      var t := s[i + 1..];
      assert t[j - i - 1] == sep;
      assert t[j - i..] == s[j + 1..];
      LastSplitAfterIndex(t, sep, j - i - 1);
    }
  }

  lemma SplitLastAfter(prefix: string, sep: char, ext: string)
    requires sep !in ext
    ensures Last(Split(prefix + [sep] + ext, sep)) == ext
  {
    var s := prefix + [sep] + ext;
    assert s[|prefix|] == sep && s[|prefix| + 1..] == ext;
    LastSplitAfterIndex(s, sep, |prefix|);
  }

  /** Only what follows the last dot decides the type. */
  lemma FileTypeAfterLastDot(prefix: string, ext: string)
    requires '.' !in ext
    ensures GetFileType(prefix + "." + ext) == GetFileType(ext) == Classify(Lower(ext))
  {
    SplitLastAfter(prefix, '.', ext);
    SplitNone(ext, '.');
  }

  /** A character that is not a letter is unchanged by lower-casing, and no other
      character lower-cases to it. */
  predicate NotLetter(c: char) {
    !('A' <= c <= 'Z') && !('a' <= c <= 'z')
  }

  lemma {:induction false} LowerFirstIndex(s: string, sep: char)
    requires sep in s && NotLetter(sep)
    ensures sep in Lower(s) && FirstIndex(Lower(s), sep) == FirstIndex(s, sep)
  {
    var i := FirstIndex(s, sep);
    assert Lower(s)[i] == sep;
    var k := FirstIndex(Lower(s), sep);
    assert s[k] == sep by { assert LowerChar(s[k]) == sep; }
  }

  lemma NoSepLower(s: string, sep: char)
    requires sep !in s && NotLetter(sep)
    ensures sep !in Lower(s)
  {
    forall j | 0 <= j < |s| ensures Lower(s)[j] != sep { }
  }

  lemma {:induction false} LowerSuffix(s: string, i: nat)
    requires i <= |s|
    ensures Lower(s)[i..] == Lower(s[i..])
  {
    var a, b := Lower(s)[i..], Lower(s[i..]);
    assert |a| == |b|;
    forall k | 0 <= k < |a| ensures a[k] == b[k] {
      assert s[i..][k] == s[i + k];
    }
  }

  lemma {:induction false} SplitLastLower(s: string, sep: char)
    requires NotLetter(sep)
    ensures Last(Split(Lower(s), sep)) == Lower(Last(Split(s, sep)))
    decreases |s|
  {
    if sep in s {
      LowerFirstIndex(s, sep);
      var i := FirstIndex(s, sep);
      LastSplitStep(s, sep);
      LastSplitStep(Lower(s), sep);
      LowerSuffix(s, i + 1);
      SplitLastLower(s[i + 1..], sep);
    } else {
      NoSepLower(s, sep);
      SplitNone(s, sep);
      SplitNone(Lower(s), sep);
    }
  }

  /** The type does not depend on the case of the name. */
  lemma FileTypeIgnoresCase(filename: string)
    ensures GetFileType(Lower(filename)) == GetFileType(filename)
  {
    SplitLastLower(filename, '.');
    LowerIdempotent(Last(Split(filename, '.')));
  }

  // ---------------------------------------------------------------------------
  // getFileIcon

  function FileTypeName(t: FileType): string {
    match t
    case Document => "document"
    case Image => "image"
    case Pdf => "pdf"
    case Spreadsheet => "spreadsheet"
    case Other => "other"
  }

  /** The folder icon shown for any type without its own. */
  const DefaultIcon: string := "\U{1F4C1}"
  const PdfIcon: string := "\U{1F4C4}"
  const ImageIcon: string := "\U{1F5BC}\U{FE0F}"
  const DocumentIcon: string := "\U{1F4DD}"
  const SpreadsheetIcon: string := "\U{1F4CA}"

  function GetFileIcon(fileType: string): (icon: string)
    ensures fileType == "pdf" ==> icon == PdfIcon
    ensures fileType == "image" ==> icon == ImageIcon
    ensures fileType == "document" ==> icon == DocumentIcon
    ensures fileType == "spreadsheet" ==> icon == SpreadsheetIcon
    ensures icon == DefaultIcon <==> fileType !in {"pdf", "image", "document", "spreadsheet"}
  {
    match fileType
    case "pdf" => PdfIcon
    case "image" => ImageIcon
    case "document" => DocumentIcon
    case "spreadsheet" => SpreadsheetIcon
    case _ => DefaultIcon
  }

  /** The four named types have four different icons; "other" gets the default. */
  lemma IconsDistinct(s: FileType, t: FileType)
    requires s != Other && t != Other && s != t
    ensures GetFileIcon(FileTypeName(s)) != GetFileIcon(FileTypeName(t))
  {
  }
}
