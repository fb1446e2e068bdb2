/** The validated dataset index of `DRDataGenerator` (backend/utils.py):
    labels.csv is read and range-checked, the `.jpeg` files under the data
    directory are visited in sorted order, and a file is kept when its
    basename has a label and the image opens in mode RGB or L. The manifest
    read, the directory walk and `Image.open` are oracles given as data. */
module DataGenerator {
  import opened Common
  import opened Paths
  import opened PathOrder

  /** One row of labels.csv: a basename and its severity grade. */
  datatype Row = Row(filename: string, grade: int)

  /** What reading labels.csv and its two columns gives. */
  datatype ManifestRead =
    | ManifestMissing          // pd.read_csv raised FileNotFoundError
    | ManifestMalformed        // any other exception while reading or indexing
    | Manifest(rows: seq<Row>)

  /** What `Image.open` gives for a file: an exception, or the image mode. */
  datatype Probe = Unreadable | Opened(mode: string)

  /** A file under the data directory: its path and what opening it gives. */
  datatype File = File(path: string, probe: Probe)

  /** One kept sample: `image_paths[i]` and `labels[i]`. */
  datatype Entry = Entry(path: string, grade: int)

  /** FileNotFoundError for a missing manifest; ValueError otherwise. */
  datatype InitError = LabelsNotFound | LabelsInvalid | NoValidImages

  /** IndexError, or the re-raised exception of a failed image load. */
  datatype AccessError = IndexOutOfRange | LoadFailed

  /** `labels_df['label'].between(0, 4)`. */
  predicate InRange(grade: int) {
    0 <= grade <= 4
  }

  predicate SupportedMode(mode: string) {
    mode == "RGB" || mode == "L"
  }

  function PathOf(f: File): string {
    f.path
  }

  /** `dict(zip(filenames, labels))`: built row by row, so a later row for
      the same filename overwrites an earlier one. */
  function LabelMap(rows: seq<Row>): (m: map<string, int>)
    ensures forall i :: 0 <= i < |rows| ==> rows[i].filename in m
    ensures forall k :: k in m ==> exists i :: 0 <= i < |rows| && rows[i].filename == k && m[k] == rows[i].grade
  {
    if |rows| == 0 then map[]
    else
      var init := rows[..|rows| - 1];
      var last := rows[|rows| - 1];
      LabelMapSnoc(rows, LabelMap(init));
      LabelMap(init)[last.filename := last.grade]
  }

  /** One more row keeps both properties of `LabelMap`. */
  lemma LabelMapSnoc(rows: seq<Row>, prev: map<string, int>)
    requires |rows| > 0
    requires forall i :: 0 <= i < |rows| - 1 ==> rows[i].filename in prev
    requires forall k :: k in prev ==> exists i :: 0 <= i < |rows| - 1 && rows[i].filename == k && prev[k] == rows[i].grade
    ensures var last := rows[|rows| - 1]; var m := prev[last.filename := last.grade];
      (forall i :: 0 <= i < |rows| ==> rows[i].filename in m) &&
      (forall k :: k in m ==> exists i :: 0 <= i < |rows| && rows[i].filename == k && m[k] == rows[i].grade)
  {
    var last := rows[|rows| - 1];
    var m := prev[last.filename := last.grade];
    forall k | k in m ensures exists i :: 0 <= i < |rows| && rows[i].filename == k && m[k] == rows[i].grade {
      if k == last.filename {
        assert rows[|rows| - 1].filename == k && m[k] == rows[|rows| - 1].grade;
      } else {
        var i :| 0 <= i < |rows| - 1 && rows[i].filename == k && prev[k] == rows[i].grade;
        assert m[k] == rows[i].grade;
      }
    }
  }

  /** The row that decides a filename's label is its last occurrence. */
  lemma {:induction false} LabelMapLastWins(rows: seq<Row>, i: nat)
    requires i < |rows|
    requires forall j :: i < j < |rows| ==> rows[j].filename != rows[i].filename
    ensures LabelMap(rows)[rows[i].filename] == rows[i].grade
  {
    if i < |rows| - 1 {
      LabelMapLastWins(rows[..|rows| - 1], i);
    }
  }

  /** Reading and validating labels.csv (backend/utils.py lines 18-30). */
  function LoadLabels(read: ManifestRead): Result<map<string, int>, InitError> {
    match read
    case ManifestMissing => Failure(LabelsNotFound)
    case ManifestMalformed => Failure(LabelsInvalid)
    case Manifest(rows) =>
      if forall i :: 0 <= i < |rows| ==> InRange(rows[i].grade) then Success(LabelMap(rows))
      else Failure(LabelsInvalid)
  }

  /** The manifest is rejected exactly when it is missing, malformed or has
      a label outside [0, 4]; otherwise every label in the map is a grade. */
  lemma LoadLabelsSpec(read: ManifestRead)
    ensures LoadLabels(read).Failure? <==>
      (!read.Manifest? || exists i :: 0 <= i < |read.rows| && !InRange(read.rows[i].grade))
    ensures read.ManifestMissing? <==> LoadLabels(read) == Failure(LabelsNotFound)
    ensures LoadLabels(read).Success? ==>
      forall k :: k in LoadLabels(read).value ==> InRange(LoadLabels(read).value[k])
  {
    if LoadLabels(read).Success? {
      var m := LoadLabels(read).value;
      forall k | k in m ensures InRange(m[k]) {
        var i :| 0 <= i < |read.rows| && read.rows[i].filename == k && m[k] == read.rows[i].grade;
      }
    }
  }

  /** The glob pattern for JPEG files: the file's name ends in ".jpeg". */
  predicate IsJpeg(f: File) {
    EndsWith(BaseName(f.path), ".jpeg")
  }

  function Jpegs(files: seq<File>): (r: seq<File>)
    ensures forall f :: f in r <==> f in files && IsJpeg(f)
  {
    if |files| == 0 then []
    else
      var init := files[..|files| - 1];
      var f := files[|files| - 1];
      assert files == init + [f];
      assert forall g :: g in files <==> g in init || g == f;
      if IsJpeg(f) then Jpegs(init) + [f] else Jpegs(init)
  }

  /** The JPEG files of the directory walk, sorted by path (backend/utils.py line 37). */
  function Candidates(files: seq<File>): (r: seq<File>)
    ensures SortedBy(r, PathOf)
    ensures forall f :: f in r <==> f in files && IsJpeg(f)
  {
    var r := SortBy(Jpegs(files), PathOf);
    assert forall f :: f in r <==> f in multiset(r);
    r
  }

  /** The label a candidate is kept with, or None when it is skipped
      (no label, open failed, or unsupported mode). */
  function Admitted(f: File, labels: map<string, int>): Option<int> {
    var name := BaseName(f.path);
    if name in labels && f.probe.Opened? && SupportedMode(f.probe.mode) then Some(labels[name])
    else None
  }

  /** The entries kept from `files`, in the order they are visited. */
  function Select(files: seq<File>, labels: map<string, int>): seq<Entry> {
    if |files| == 0 then []
    else
      var prev := Select(files[..|files| - 1], labels);
      var f := files[|files| - 1];
      match Admitted(f, labels)
      case Some(l) => prev + [Entry(f.path, l)]
      case None => prev
  }

  /** Every kept entry comes from a visited file that is admitted with that label. */
  lemma {:induction false} SelectSound(files: seq<File>, labels: map<string, int>, e: Entry)
    requires e in Select(files, labels)
    ensures exists j :: 0 <= j < |files| && files[j].path == e.path && Admitted(files[j], labels) == Some(e.grade)
  {
    var prev := files[..|files| - 1];
    if e in Select(prev, labels) {
      SelectSound(prev, labels, e);
      var j :| 0 <= j < |prev| && prev[j].path == e.path && Admitted(prev[j], labels) == Some(e.grade);
      assert files[j] == prev[j];
    } else {
      assert files[|files| - 1].path == e.path;
    }
  }

  /** Every admitted file is kept. */
  lemma {:induction false} SelectComplete(files: seq<File>, labels: map<string, int>, j: nat)
    requires j < |files| && Admitted(files[j], labels).Some?
    ensures Entry(files[j].path, Admitted(files[j], labels).value) in Select(files, labels)
  {
    if j < |files| - 1 {
      var prev := files[..|files| - 1];
      assert prev[j] == files[j];
      SelectComplete(prev, labels, j);
    }
  }

  /** Kept entries keep the visiting order. */
  lemma {:induction false} SelectKeepsOrder(files: seq<File>, labels: map<string, int>)
    requires SortedBy(files, PathOf)
    ensures forall i, j :: 0 <= i < j < |Select(files, labels)| ==>
      PathLeq(Select(files, labels)[i].path, Select(files, labels)[j].path)
  {
    if |files| > 0 {
      var prev := files[..|files| - 1];
      var f := files[|files| - 1];
      SelectKeepsOrder(prev, labels);
      var before := Select(prev, labels);
      if Admitted(f, labels).Some? {
        var s := Select(files, labels);
        assert s == before + [Entry(f.path, Admitted(f, labels).value)];
        forall i | 0 <= i < |before| ensures PathLeq(before[i].path, f.path) {
          assert before[i] in before;
          SelectSound(prev, labels, before[i]);
          var k :| 0 <= k < |prev| && prev[k].path == before[i].path && Admitted(prev[k], labels) == Some(before[i].grade);
          assert files[k] == prev[k];
        }
        forall i, j | 0 <= i < j < |s| ensures PathLeq(s[i].path, s[j].path) {
          assert s[i] == before[i];
          if j < |before| {
            assert s[j] == before[j];
          }
        }
      } else {
        assert Select(files, labels) == before;
      }
    }
  }

  lemma {:induction false} SelectLabelsInRange(files: seq<File>, labels: map<string, int>)
    requires forall k :: k in labels ==> InRange(labels[k])
    ensures forall i :: 0 <= i < |Select(files, labels)| ==> InRange(Select(files, labels)[i].grade)
  {
    if |files| > 0 {
      SelectLabelsInRange(files[..|files| - 1], labels);
    }
  }

  /** The whole of `DRDataGenerator.__init__` as a value: the kept entries
      or the exception it raises. */
  function Build(read: ManifestRead, files: seq<File>): Result<seq<Entry>, InitError> {
    match LoadLabels(read)
    case Failure(e) => Failure(e)
    case Success(labels) =>
      var kept := Select(Candidates(files), labels);
      if |kept| == 0 then Failure(NoValidImages) else Success(kept)
  }

  /** A manifest with a grade outside [0, 4] makes construction fail with
      ValueError, whatever the images are. */
  lemma BuildRejectsOutOfRange(read: ManifestRead, files: seq<File>, i: nat)
    requires read.Manifest? && i < |read.rows| && !InRange(read.rows[i].grade)
    ensures Build(read, files) == Failure(LabelsInvalid)
  {
  }

  /** A successful build comes from a valid manifest, is non-empty, holds
      only grades, and is sorted by path. */
  lemma BuildShape(read: ManifestRead, files: seq<File>)
    requires Build(read, files).Success?
    ensures read.Manifest? && forall i :: 0 <= i < |read.rows| ==> InRange(read.rows[i].grade)
    ensures |Build(read, files).value| >= 1
    ensures forall i :: 0 <= i < |Build(read, files).value| ==> InRange(Build(read, files).value[i].grade)
    ensures forall i, j :: 0 <= i < j < |Build(read, files).value| ==>
      PathLeq(Build(read, files).value[i].path, Build(read, files).value[j].path)
  {
    LoadLabelsSpec(read);
    var labels := LabelMap(read.rows);
    var cands := Candidates(files);
    assert Build(read, files).value == Select(cands, labels);
    SelectKeepsOrder(cands, labels);
    SelectLabelsInRange(cands, labels);
  }

  /** Every kept entry is a `.jpeg` file whose basename has a label, which
      opens as RGB or L, and which carries the manifest's label for it. */
  lemma BuildSound(read: ManifestRead, files: seq<File>, e: Entry)
    requires Build(read, files).Success? && e in Build(read, files).value
    ensures read.Manifest?
    ensures exists f :: (f in files && IsJpeg(f) && f.path == e.path && f.probe.Opened? && SupportedMode(f.probe.mode) &&
      BaseName(f.path) in LabelMap(read.rows) && e.grade == LabelMap(read.rows)[BaseName(f.path)])
  {
    var labels := LabelMap(read.rows);
    var cands := Candidates(files);
    assert Build(read, files).value == Select(cands, labels);
    SelectSound(cands, labels, e);
    var j :| 0 <= j < |cands| && cands[j].path == e.path && Admitted(cands[j], labels) == Some(e.grade);
    assert cands[j] in cands;
  }

  /** Every `.jpeg` file that has a label and opens as RGB or L is kept. */
  lemma BuildComplete(read: ManifestRead, files: seq<File>, f: File)
    requires Build(read, files).Success?
    requires f in files && IsJpeg(f) && Admitted(f, LabelMap(read.rows)).Some?
    ensures Entry(f.path, LabelMap(read.rows)[BaseName(f.path)]) in Build(read, files).value
  {
    var labels := LabelMap(read.rows);
    var cands := Candidates(files);
    assert Build(read, files).value == Select(cands, labels);
    var j :| 0 <= j < |cands| && cands[j] == f;
    SelectComplete(cands, labels, j);
  }

  /** Construction fails with "No valid images" exactly when the manifest is
      valid but no `.jpeg` file is admitted. */
  lemma BuildEmpty(read: ManifestRead, files: seq<File>)
    requires LoadLabels(read).Success?
    ensures Build(read, files) == Failure(NoValidImages) <==>
      forall f :: f in files && IsJpeg(f) ==> Admitted(f, LoadLabels(read).value).None?
  {
    var labels := LoadLabels(read).value;
    var cands := Candidates(files);
    if Build(read, files) == Failure(NoValidImages) {
      forall f | f in files && IsJpeg(f) ensures Admitted(f, labels).None? {
        if Admitted(f, labels).Some? {
          var j :| 0 <= j < |cands| && cands[j] == f;
          SelectComplete(cands, labels, j);
        }
      }
    } else {
      var e := Select(cands, labels)[0];
      SelectSound(cands, labels, e);
      var j :| 0 <= j < |cands| && cands[j].path == e.path && Admitted(cands[j], labels) == Some(e.grade);
      assert cands[j] in cands;
    }
  }

  function PathsOf(es: seq<Entry>): (r: seq<string>)
    ensures |r| == |es| && forall i :: 0 <= i < |es| ==> r[i] == es[i].path
  {
    if |es| == 0 then [] else PathsOf(es[..|es| - 1]) + [es[|es| - 1].path]
  }

  function LabelsOf(es: seq<Entry>): (r: seq<int>)
    ensures |r| == |es| && forall i :: 0 <= i < |es| ==> r[i] == es[i].grade
  {
    if |es| == 0 then [] else LabelsOf(es[..|es| - 1]) + [es[|es| - 1].grade]
  }

  /** The entries one visited file contributes: none, or one. */
  function KeptFrom(f: File, labels: map<string, int>): seq<Entry> {
    match Admitted(f, labels)
    case Some(l) => [Entry(f.path, l)]
    case None => []
  }

  lemma NothingKept(f: File, labels: map<string, int>)
    requires Admitted(f, labels).None?
    ensures PathsOf(KeptFrom(f, labels)) == [] && LabelsOf(KeptFrom(f, labels)) == []
  {
  }

  lemma OneKept(f: File, labels: map<string, int>)
    requires Admitted(f, labels).Some?
    ensures PathsOf(KeptFrom(f, labels)) == [f.path]
    ensures LabelsOf(KeptFrom(f, labels)) == [Admitted(f, labels).value]
  {
  }

  /** Visiting one more file appends what it contributes. */
  lemma SelectStep(files: seq<File>, labels: map<string, int>, i: nat)
    requires i < |files|
    ensures Select(files[..i + 1], labels) == Select(files[..i], labels) + KeptFrom(files[i], labels)
  {
    assert files[..i + 1][..i] == files[..i];
  }

  lemma EntriesAppend(es: seq<Entry>, more: seq<Entry>)
    ensures PathsOf(es + more) == PathsOf(es) + PathsOf(more)
    ensures LabelsOf(es + more) == LabelsOf(es) + LabelsOf(more)
  {
  }

  /** Appending what `files[i]` contributes to the lists built from
      `files[..i]` gives the lists built from `files[..i + 1]`. */
  lemma VisitStep(files: seq<File>, labels: map<string, int>, i: nat,
                  paths0: seq<string>, grades0: seq<int>, paths: seq<string>, grades: seq<int>)
    requires i < |files|
    requires paths == paths0 + PathsOf(Select(files[..i], labels))
    requires grades == grades0 + LabelsOf(Select(files[..i], labels))
    ensures paths + PathsOf(KeptFrom(files[i], labels)) == paths0 + PathsOf(Select(files[..i + 1], labels))
    ensures grades + LabelsOf(KeptFrom(files[i], labels)) == grades0 + LabelsOf(Select(files[..i + 1], labels))
  {
    SelectStep(files, labels, i);
    AppendEntries(paths0, grades0, Select(files[..i], labels), KeptFrom(files[i], labels));
  }

  lemma AppendEntries(paths0: seq<string>, grades0: seq<int>, es: seq<Entry>, more: seq<Entry>)
    ensures paths0 + PathsOf(es) + PathsOf(more) == paths0 + PathsOf(es + more)
    ensures grades0 + LabelsOf(es) + LabelsOf(more) == grades0 + LabelsOf(es + more)
  {
    EntriesAppend(es, more);
    Common.AppendAssoc(paths0, PathsOf(es), PathsOf(more));
    Common.AppendAssoc(grades0, LabelsOf(es), LabelsOf(more));
  }

  /** With a valid manifest, `Build` is the selection over the sorted
      candidates, and every selected label is a grade. */
  lemma BuildAfterLabels(read: ManifestRead, files: seq<File>, labelMap: map<string, int>)
    requires LoadLabels(read) == Success(labelMap)
    ensures Build(read, files) ==
      if |Select(Candidates(files), labelMap)| == 0 then Failure(NoValidImages)
      else Success(Select(Candidates(files), labelMap))
    ensures forall i :: 0 <= i < |LabelsOf(Select(Candidates(files), labelMap))| ==>
      InRange(LabelsOf(Select(Candidates(files), labelMap))[i])
  {
    LoadLabelsSpec(read);
    SelectLabelsInRange(Candidates(files), labelMap);
  }

  class DRDataGenerator {
    const training: bool
    var imagePaths: seq<string>
    var labels: seq<int>

    /** The two lists are parallel, non-empty, and every label is a grade. */
    ghost predicate Valid()
      reads this
    {
      |imagePaths| == |labels| && |imagePaths| > 0 &&
      forall i :: 0 <= i < |labels| ==> InRange(labels[i])
    }

    constructor Init(training: bool)
      ensures this.training == training && imagePaths == [] && labels == []
    {
      this.training := training;
      imagePaths := [];
      labels := [];
    }

    /** `DRDataGenerator(data_dir, training)`: raises, or returns a generator
        whose lists are the entries of `Build`. */
    static method New(read: ManifestRead, files: seq<File>, training: bool)
      returns (r: Result<DRDataGenerator, InitError>)
      ensures r.Failure? <==> Build(read, files).Failure?
      ensures r.Failure? ==> r.error == Build(read, files).error
      ensures r.Success? ==> fresh(r.value) && r.value.Valid() && r.value.training == training
      ensures r.Success? ==> r.value.imagePaths == PathsOf(Build(read, files).value)
      ensures r.Success? ==> r.value.labels == LabelsOf(Build(read, files).value)
    {
      var loaded := LoadLabels(read);
      if loaded.Failure? {
        return Failure(loaded.error);
      }
      var labelMap := loaded.value;
      var candidates := Candidates(files);
      var g := new DRDataGenerator.Init(training);
      g.AddImages(candidates, labelMap);
      BuildAfterLabels(read, files, labelMap);
      if |g.imagePaths| == 0 {
        return Failure(NoValidImages);
      }
      return Success(g);
    }

    /** The loop of `__init__`: visits `candidates` in order and appends the
        path and label of each file whose basename has a label and which
        opens in a supported mode; the others are logged and skipped. */
    method AddImages(candidates: seq<File>, labelMap: map<string, int>)
      modifies this
      ensures imagePaths == old(imagePaths) + PathsOf(Select(candidates, labelMap))
      ensures labels == old(labels) + LabelsOf(Select(candidates, labelMap))
    {
      var i := 0;
      while i < |candidates|
        invariant 0 <= i <= |candidates|
        invariant imagePaths == old(imagePaths) + PathsOf(Select(candidates[..i], labelMap))
        invariant labels == old(labels) + LabelsOf(Select(candidates[..i], labelMap))
      {
        VisitStep(candidates, labelMap, i, old(imagePaths), old(labels), imagePaths, labels);
        Visit(candidates[i], labelMap);
        i := i + 1;
      }
      assert candidates[..i] == candidates;
    }

    /** One iteration of that loop: a file with no label, one that fails to
        open and one in another mode are skipped; any other is appended. */
    method Visit(f: File, labelMap: map<string, int>)
      modifies this
      ensures imagePaths == old(imagePaths) + PathsOf(KeptFrom(f, labelMap))
      ensures labels == old(labels) + LabelsOf(KeptFrom(f, labelMap))
    {
      var name := BaseName(f.path);
      ghost var kept := Admitted(f, labelMap);
      assert kept == if name in labelMap && f.probe.Opened? && SupportedMode(f.probe.mode)
                     then Some(labelMap[name]) else None;
      if name in labelMap {
        match f.probe
        case Unreadable =>
          // the open raised: logged and skipped
          NothingKept(f, labelMap);
        case Opened(mode) =>
          if !SupportedMode(mode) {
            NothingKept(f, labelMap);
            return; // unsupported mode: logged and skipped
          }
          OneKept(f, labelMap);
          imagePaths := imagePaths + [f.path];
          labels := labels + [labelMap[name]];
      } else {
        // no label: logged and skipped
        NothingKept(f, labelMap);
      }
    }

    /** `__len__`: at least one, since construction refuses an empty index. */
    function Len(): (n: nat)
      reads this
      requires Valid()
      ensures n >= 1 && n == |labels|
    {
      |imagePaths|
    }

    /** `__getitem__(idx)`: IndexError from `idx >= len` (and from Python's
        list indexing below `-len`), otherwise the image that `load` gives
        for the path and the stored label unchanged; a failed load is
        re-raised, never replaced. */
    function GetItem<Img>(idx: int, load: string -> Option<Img>): (r: Result<(Img, int), AccessError>)
      reads this
      requires Valid()
      ensures idx >= |imagePaths| || idx < -(|imagePaths| as int) ==> r == Failure(IndexOutOfRange)
      ensures r.Success? ==> exists k :: (0 <= k < |labels| && (k == idx || k == idx + |labels|) &&
        load(imagePaths[k]).Some? && r.value == (load(imagePaths[k]).value, labels[k]))
      ensures PyIndex(idx, |imagePaths|).Some? ==>
        var k := PyIndex(idx, |imagePaths|).value;
        (r.Success? <==> load(imagePaths[k]).Some?) && (r.Failure? ==> r.error == LoadFailed)
      ensures r.Success? ==> InRange(r.value.1)
    {
      if idx >= |imagePaths| then Failure(IndexOutOfRange)
      else
        match PyIndex(idx, |imagePaths|)
        case None => Failure(IndexOutOfRange)
        case Some(k) =>
          match load(imagePaths[k])
          case None => Failure(LoadFailed)
          case Some(img) => Success((img, labels[k]))
    }
  }
}
