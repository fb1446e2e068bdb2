/** The dataset side of backend/training.py: locating an image whose name
    may carry any extension, reading one row of the CSV table without ever
    raising, and reading a checkpoint back with sentinel defaults. The file
    system is an existence oracle and the image decoder (with the transform
    applied after it) a loading oracle. */
module CreateDataset {
  import opened Common
  import opened Paths

  /** The extensions probed, in order. */
  const Extensions: seq<string> := [".jpeg", ".jpg", ".png"]

  /** The path probed for one extension: the name without its extension,
      the new extension appended, joined onto the directory. */
  function Candidate(dir: string, name: string, ext: string): string {
    Join(dir, SplitExtRoot(name) + ext)
  }

  /** The position of the first of `paths` that exists. */
  function FirstExisting(paths: seq<string>, exists_: string -> bool): (r: Option<nat>)
    ensures r.None? <==> forall k :: 0 <= k < |paths| ==> !exists_(paths[k])
    ensures r.Some? ==> (r.value < |paths| && exists_(paths[r.value]) &&
                         forall j :: 0 <= j < r.value ==> !exists_(paths[j]))
  {
    if |paths| == 0 then None
    else if exists_(paths[0]) then Some(0)
    else
      match FirstExisting(paths[1..], exists_)
      case None => None
      case Some(k) => Some(k + 1)
  }

  /** The candidate paths, one per extension, in probing order. */
  function Candidates(dir: string, name: string): (r: seq<string>)
    ensures r == [Candidate(dir, name, ".jpeg"), Candidate(dir, name, ".jpg"), Candidate(dir, name, ".png")]
  {
    seq(|Extensions|, k requires 0 <= k < |Extensions| => Candidate(dir, name, Extensions[k]))
  }

  /** `get_image_path(base_dir, img_name)`: the first existing candidate
      among `.jpeg`, `.jpg` and `.png`, or None. */
  function GetImagePath(dir: string, name: string, exists_: string -> bool): (r: Option<string>)
    ensures r.Some? ==> r.value in Candidates(dir, name) && exists_(r.value)
    ensures r.None? <==> forall ext :: ext in Extensions ==> !exists_(Candidate(dir, name, ext))
  {
    var paths := Candidates(dir, name);
    match FirstExisting(paths, exists_)
    case None =>
      assert forall ext :: ext in Extensions ==> Candidate(dir, name, ext) in paths;
      None
    case Some(k) => Some(paths[k])
  }

  /** The probing order: `.jpeg` wins whenever it exists, `.jpg` wins when
      it exists and `.jpeg` does not, `.png` only when it alone exists, and
      None exactly when no candidate exists. */
  lemma GetImagePathOrder(dir: string, name: string, exists_: string -> bool)
    ensures exists_(Candidate(dir, name, ".jpeg")) ==>
      GetImagePath(dir, name, exists_) == Some(Candidate(dir, name, ".jpeg"))
    ensures !exists_(Candidate(dir, name, ".jpeg")) && exists_(Candidate(dir, name, ".jpg")) ==>
      GetImagePath(dir, name, exists_) == Some(Candidate(dir, name, ".jpg"))
    ensures !exists_(Candidate(dir, name, ".jpeg")) && !exists_(Candidate(dir, name, ".jpg")) ==>
      GetImagePath(dir, name, exists_) == (if exists_(Candidate(dir, name, ".png")) then Some(Candidate(dir, name, ".png")) else None)
  {
    var paths := Candidates(dir, name);
    var k := FirstExisting(paths, exists_);
    if k.Some? && k.value > 0 {
      assert !exists_(paths[0]);
      if k.value > 1 {
        assert !exists_(paths[1]);
      }
    }
  }

  /** Whatever extension the table gives, a plain name `x.ext` is looked
      up as `x` with each probed extension. */
  lemma CandidateReplacesExtension(dir: string, x: string, ext: string, probe: string)
    requires |x| > 0 && x[0] != '.' && Sep !in x
    requires '.' !in ext && Sep !in ext
    ensures Candidate(dir, x + "." + ext, probe) == Join(dir, x + probe)
  {
    SplitExtDropsExtension(x, ext);
  }

  /** A cell of the table as `df.values` holds it. */
  datatype Cell = Text(text: string) | Int(number: int)

  /** The image half of a sample: a loaded, transformed image, or the
      `torch.zeros((3, 224, 224))` substitute. */
  datatype Tensor<Img> = Loaded(img: Img) | Zeros(shape: seq<nat>)

  /** The shape of the substitute tensor: three channels of 224 by 224. */
  const ZerosShape: seq<nat> := [3, 224, 224]

  /** What `__getitem__` returns when any step fails: a zero tensor of the
      network's input shape, three channels of 224 by 224, and label 0. */
  function Fallback<Img>(): (r: (Tensor<Img>, Cell))
    ensures r.0.Zeros? && r.0.shape == [3, 224, 224] && r.1 == Int(0)
  {
    (Zeros(ZerosShape), Int(0))
  }

  /** The name and label of a row: a two-cell row is (name, label), any
      other row keeps its first cell as name and gets label 0; an empty row
      has no name (the lookup raises IndexError). */
  function NameAndLabel(row: seq<Cell>): (r: Option<(Cell, Cell)>)
    ensures r.None? <==> |row| == 0
    ensures |row| == 2 ==> r == Some((row[0], row[1]))
    ensures |row| > 0 && |row| != 2 ==> r == Some((row[0], Int(0)))
  {
    if |row| == 2 then Some((row[0], row[1]))
    else if |row| > 0 then Some((row[0], Int(0)))
    else None
  }

  /** Every step up to the loaded image, or None at the first failure: the
      index lookup, the row shape, a name that is not text (`splitext`
      raises TypeError), no existing file, or a failed decode. */
  function Attempt<Img>(rows: seq<seq<Cell>>, index: int, dir: string,
                        exists_: string -> bool, load: string -> Option<Img>): Option<(Img, Cell)>
  {
    match PyIndex(index, |rows|)
    case None => None
    case Some(k) =>
      match NameAndLabel(rows[k])
      case None => None
      case Some(nl) =>
        if !nl.0.Text? then None
        else
          match GetImagePath(dir, nl.0.text, exists_)
          case None => None
          case Some(path) =>
            match load(path)
            case None => None
            case Some(img) => Some((img, nl.1))
  }

  /** `CreateDataset.__getitem__`: never raises. */
  function GetItem<Img>(rows: seq<seq<Cell>>, index: int, dir: string,
                        exists_: string -> bool, load: string -> Option<Img>): (r: (Tensor<Img>, Cell))
    ensures r.0.Zeros? <==> Attempt(rows, index, dir, exists_, load).None?
    ensures r.0.Zeros? ==> r == Fallback()
  {
    match Attempt(rows, index, dir, exists_, load)
    case None => Fallback()
    case Some(hit) => (Loaded(hit.0), hit.1)
  }

  /** A sample carries a real image exactly when the index is in range, the
      row is non-empty with a text name, a candidate file exists and it
      decodes; its label is then the second cell of a two-cell row and 0
      for any other shape. */
  lemma GetItemCharacterised<Img>(rows: seq<seq<Cell>>, index: int, dir: string,
                                  exists_: string -> bool, load: string -> Option<Img>)
    ensures var r := GetItem(rows, index, dir, exists_, load);
      r.0.Loaded? <==>
        (PyIndex(index, |rows|).Some? &&
         var row := rows[PyIndex(index, |rows|).value];
         |row| > 0 && row[0].Text? &&
         GetImagePath(dir, row[0].text, exists_).Some? &&
         load(GetImagePath(dir, row[0].text, exists_).value).Some?)
    ensures var r := GetItem(rows, index, dir, exists_, load);
      r.0.Loaded? ==>
        var row := rows[PyIndex(index, |rows|).value];
        r.0.img == load(GetImagePath(dir, row[0].text, exists_).value).value &&
        r.1 == (if |row| == 2 then row[1] else Int(0))
  {
  }

  /** Whatever happens, a sample comes back: an index out of range, an
      empty row or a missing file all give the zero tensor with label 0. */
  lemma GetItemFallbacks<Img>(rows: seq<seq<Cell>>, index: int, dir: string,
                              exists_: string -> bool, load: string -> Option<Img>)
    ensures PyIndex(index, |rows|).None? ==> GetItem(rows, index, dir, exists_, load) == Fallback()
    ensures PyIndex(index, |rows|).Some? && |rows[PyIndex(index, |rows|).value]| == 0 ==>
      GetItem(rows, index, dir, exists_, load) == Fallback()
    ensures PyIndex(index, |rows|).Some? && |rows[PyIndex(index, |rows|).value]| > 0 &&
      rows[PyIndex(index, |rows|).value][0].Text? &&
      (forall ext :: ext in Extensions ==> !exists_(Candidate(dir, rows[PyIndex(index, |rows|).value][0].text, ext)))
      ==> GetItem(rows, index, dir, exists_, load) == Fallback()
  {
    if PyIndex(index, |rows|).Some? {
      var row := rows[PyIndex(index, |rows|).value];
      if |row| > 0 && row[0].Text? {
        GetImagePathOrder(dir, row[0].text, exists_);
        assert ".jpeg" in Extensions && ".jpg" in Extensions && ".png" in Extensions;
      }
    }
  }

  /** `__len__`: the number of rows. */
  function Len(rows: seq<seq<Cell>>): (n: nat)
    ensures n == |rows|
    ensures forall index :: 0 <= index < n ==> PyIndex(index, |rows|) == Some(index)
  {
    |rows|
  }

  /** The checkpoint dictionary `save_model` writes; the model and
      optimiser state are not modelled. A dictionary read back may lack
      either key. */
  datatype Checkpoint = Checkpoint(epoch: Option<int>, loss: Option<real>)

  /** `save_model(model, optimizer, epoch, valid_loss, path)`: the
      dictionary written. */
  function SaveModel(epoch: int, validLoss: real): (c: Checkpoint)
    ensures c.epoch == Some(epoch) && c.loss == Some(validLoss)
  {
    Checkpoint(Some(epoch), Some(validLoss))
  }

  /** What reading the checkpoint file gives: it does not exist, it exists
      but loading it (or its state dictionaries) raises, or it holds a
      dictionary. */
  datatype Stored = Missing | Corrupt | Stored(checkpoint: Checkpoint)

  /** `load_model`: the stored epoch and loss, each defaulting when its key
      is absent, and `(0, inf)` when there is no readable checkpoint. */
  function LoadModel(stored: Stored): (r: (int, Bound))
    ensures !stored.Stored? ==> r == (0, PosInf)
    ensures stored.Stored? ==>
      r.0 == (if stored.checkpoint.epoch.Some? then stored.checkpoint.epoch.value else 0) &&
      r.1 == (if stored.checkpoint.loss.Some? then Finite(stored.checkpoint.loss.value) else PosInf)
  {
    match stored
    case Missing => (0, PosInf)
    case Corrupt => (0, PosInf)
    case Stored(c) =>
      (match c.epoch case Some(e) => e case None => 0,
       match c.loss case Some(l) => Finite(l) case None => PosInf)
  }

  /** Reading back what `save_model` wrote gives the saved epoch and loss;
      the sentinel loss `inf` is given only when nothing usable was read,
      and every finite loss is below it. */
  lemma SaveLoadRoundTrip(epoch: int, validLoss: real)
    ensures LoadModel(Stored(SaveModel(epoch, validLoss))) == (epoch, Finite(validLoss))
    ensures LoadModel(Missing).1 == PosInf && Below(validLoss, LoadModel(Missing).1)
  {
  }
}
