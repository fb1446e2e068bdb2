/** The filename-labelled image index of backend/model/utils.py: the label
    of a retina image is the second `_`-separated field of its file stem
    (`ID_label.jpeg`), and the index collects every `.jpeg` file under a
    directory. */
module ModelUtils {
  import opened Common
  import opened Paths

  /** The exceptions `get_label` and the index raise. */
  datatype PyError = IndexError | ValueError | AttributeError

  /** `s.find(c)`: the first position of `c` in `s`; None stands for -1. */
  function IndexOf(s: string, c: char): (r: Option<nat>)
    ensures r.Some? ==> r.value < |s| && s[r.value] == c && c !in s[..r.value]
    ensures r.None? ==> c !in s
  {
    if |s| == 0 then None
    else if s[0] == c then Some(0)
    else match IndexOf(s[1..], c)
      case None => None
      case Some(i) => assert s[..i + 1] == [s[0]] + s[1..][..i]; Some(i + 1)
  }

  /** `f` follows the first `c` of `s`, at `i`, and runs up to the next `c`
      or the end. */
  predicate FieldAt(s: string, c: char, i: nat, f: string) {
    i + 1 + |f| <= |s| && c !in s[..i] && s[i] == c && s[i + 1..i + 1 + |f|] == f &&
    (i + 1 + |f| == |s| || s[i + 1 + |f|] == c)
  }

  /** `s.split(c)[1]`: the text between the first and the second `c` (or
      the end); None where Python raises IndexError because `c` is absent. */
  function SecondField(s: string, c: char): (r: Option<string>)
    ensures r.None? <==> c !in s
    ensures r.Some? ==> c !in r.value && exists i :: FieldAt(s, c, i, r.value)
  {
    match IndexOf(s, c)
    case None => None
    case Some(i) =>
      var rest := s[i + 1..];
      match IndexOf(rest, c)
      case None =>
        assert s[i + 1..i + 1 + |rest|] == rest;
        assert FieldAt(s, c, i, rest);
        Some(rest)
      case Some(j) =>
        assert s[i + 1..i + 1 + j] == rest[..j];
        assert FieldAt(s, c, i, rest[..j]);
        Some(rest[..j])
  }

  /** The second field of `x + [c] + y` is `y` when neither holds a `c`. */
  lemma SecondFieldOf(x: string, c: char, y: string)
    requires c !in x && c !in y
    ensures SecondField(x + [c] + y, c) == Some(y)
  {
    var s := x + [c] + y;
    assert s[..|x|] == x;
    IndexOfPrefix(x, c, [c] + y);
    assert s[|x| + 1..] == y;
  }

  lemma {:induction false} IndexOfPrefix(x: string, c: char, y: string)
    requires c !in x && |y| > 0 && y[0] == c
    ensures IndexOf(x + y, c) == Some(|x|)
  {
    if |x| > 0 {
      assert x[0] in x;
      IndexOfPrefix(x[1..], c, y);
      assert (x + y)[1..] == x[1..] + y;
    }
  }

  /** The whitespace `int()` ignores around its argument: the ASCII
      characters 9 to 13 and the space, and the Unicode white space above
      ASCII. U+001C to U+001F, which `str.isspace` accepts, are not
      stripped. */
  predicate IsSpace(c: char) {
    9 <= c as int <= 13 || c == ' ' || c as int == 0x85 || c as int == 0xA0 || c as int == 0x1680 ||
    0x2000 <= c as int <= 0x200A || c as int == 0x2028 || c as int == 0x2029 || c as int == 0x202F ||
    c as int == 0x205F || c as int == 0x3000
  }

  predicate IsAsciiDigit(c: char) {
    '0' as int <= c as int <= '9' as int
  }

  /** `c` is one of the ten digits of the block starting at `zero`. */
  predicate InBlock(c: int, zero: int) {
    zero <= c < zero + 10
  }

  /** The number of decimal-digit blocks above ASCII. */
  const OtherBlocks: nat := 67

  /** The first code point of the `i`-th decimal-digit block above ASCII:
      the blocks of general category Nd in Unicode 15.0, each holding the
      digits 0 to 9 in order; `int()` accepts the digits of every block. */
  function BlockZero(i: nat): int
    requires i < OtherBlocks
  {
    match i
    case 0 => 0x660
    case 1 => 0x6F0
    case 2 => 0x7C0
    case 3 => 0x966
    case 4 => 0x9E6
    case 5 => 0xA66
    case 6 => 0xAE6
    case 7 => 0xB66
    case 8 => 0xBE6
    case 9 => 0xC66
    case 10 => 0xCE6
    case 11 => 0xD66
    case 12 => 0xDE6
    case 13 => 0xE50
    case 14 => 0xED0
    case 15 => 0xF20
    case 16 => 0x1040
    case 17 => 0x1090
    case 18 => 0x17E0
    case 19 => 0x1810
    case 20 => 0x1946
    case 21 => 0x19D0
    case 22 => 0x1A80
    case 23 => 0x1A90
    case 24 => 0x1B50
    case 25 => 0x1BB0
    case 26 => 0x1C40
    case 27 => 0x1C50
    case 28 => 0xA620
    case 29 => 0xA8D0
    case 30 => 0xA900
    case 31 => 0xA9D0
    case 32 => 0xA9F0
    case 33 => 0xAA50
    case 34 => 0xABF0
    case 35 => 0xFF10
    case 36 => 0x104A0
    case 37 => 0x10D30
    case 38 => 0x11066
    case 39 => 0x110F0
    case 40 => 0x11136
    case 41 => 0x111D0
    case 42 => 0x112F0
    case 43 => 0x11450
    case 44 => 0x114D0
    case 45 => 0x11650
    case 46 => 0x116C0
    case 47 => 0x11730
    case 48 => 0x118E0
    case 49 => 0x11950
    case 50 => 0x11C50
    case 51 => 0x11D50
    case 52 => 0x11DA0
    case 53 => 0x11F50
    case 54 => 0x16A60
    case 55 => 0x16AC0
    case 56 => 0x16B50
    case 57 => 0x1D7CE
    case 58 => 0x1D7D8
    case 59 => 0x1D7E2
    case 60 => 0x1D7EC
    case 61 => 0x1D7F6
    case 62 => 0x1E140
    case 63 => 0x1E2F0
    case 64 => 0x1E4F0
    case 65 => 0x1E950
    case 66 => 0x1FBF0
    case _ => 0x1FBF0
  }

  /** The zero of the first block from the `i`-th on that holds `c`. */
  function OtherDigitZero(c: int, i: nat): (z: Option<int>)
    requires i <= OtherBlocks
    ensures z.Some? ==> InBlock(c, z.value)
    decreases OtherBlocks - i
  {
    if i == OtherBlocks then None
    else if InBlock(c, BlockZero(i)) then Some(BlockZero(i))
    else OtherDigitZero(c, i + 1)
  }

  /** A decimal digit of any script, as `int()` reads it. */
  predicate IsDigit(c: char) {
    IsAsciiDigit(c) || OtherDigitZero(c as int, 0).Some?
  }

  /** The value of a decimal digit. */
  function DigitValue(c: char): (d: nat)
    requires IsDigit(c)
    ensures d < 10
  {
    if IsAsciiDigit(c) then c as int - '0' as int
    else c as int - OtherDigitZero(c as int, 0).value
  }

  /** `s.strip()` of the whitespace above. */
  function Strip(s: string): (r: string)
    ensures |r| <= |s| && forall ch :: ch in r ==> ch in s
    ensures |r| > 0 ==> !IsSpace(r[0]) && !IsSpace(r[|r| - 1])
    decreases |s|
  {
    if |s| > 0 && IsSpace(s[0]) then Strip(s[1..])
    else if |s| > 0 && IsSpace(s[|s| - 1]) then Strip(s[..|s| - 1])
    else s
  }

  predicate AllDigits(s: string) {
    forall k :: 0 <= k < |s| ==> IsDigit(s[k])
  }

  /** The value of a run of decimal digits. */
  function DigitsValue(d: string): (v: nat)
    requires AllDigits(d)
  {
    if |d| == 0 then 0
    else
      var last := d[|d| - 1];
      assert IsDigit(last);
      DigitsValue(d[..|d| - 1]) * 10 + DigitValue(last)
  }

  /** `int(s)` for base-10 text: surrounding whitespace, an optional sign
      and at least one digit; anything else raises ValueError (None). */
  function ParseInt(s: string): (r: Option<int>)
  {
    var t := Strip(s);
    var neg := |t| > 0 && t[0] == '-';
    var body := if |t| > 0 && (t[0] == '-' || t[0] == '+') then t[1..] else t;
    if |body| == 0 || !AllDigits(body) then None
    else
      var v: int := DigitsValue(body);
      if neg then Some(-v) else Some(v)
  }

  /** `str(n)` for a natural number. */
  function ShowNat(n: nat): (s: string)
    ensures |s| > 0 && forall k :: 0 <= k < |s| ==> IsAsciiDigit(s[k])
    ensures AllDigits(s)
  {
    if n < 10 then [('0' as int + n) as char]
    else ShowNat(n / 10) + [('0' as int + n % 10) as char]
  }

  /** `str(i)` for an integer. */
  function ShowInt(i: int): string {
    if i < 0 then "-" + ShowNat(-i) else ShowNat(i)
  }

  lemma {:induction false} DigitsOfShowNat(n: nat)
    ensures DigitsValue(ShowNat(n)) == n
  {
    if n >= 10 {
      DigitsOfShowNat(n / 10);
      var s := ShowNat(n);
      assert s[..|s| - 1] == ShowNat(n / 10);
    }
  }

  /** `int(str(i)) == i`. */
  lemma ParseShowInt(i: int)
    ensures ParseInt(ShowInt(i)) == Some(i)
  {
    var n: nat := if i < 0 then -i else i;
    DigitsOfShowNat(n);
    if i < 0 {
      ParseNegative(ShowNat(n));
    } else {
      ParseUnsigned(ShowNat(n));
    }
  }

  /** ASCII digits read as their value. */
  lemma ParseUnsigned(d: string)
    requires |d| > 0 && forall k :: 0 <= k < |d| ==> IsAsciiDigit(d[k])
    ensures ParseInt(d) == Some(DigitsValue(d) as int)
  {
    AsciiDigitsAreDigits(d);
    AsciiNotSpace(d[0]);
    AsciiNotSpace(d[|d| - 1]);
    StripPlain(d);
  }

  /** A minus sign followed by ASCII digits reads as the negated value. */
  lemma ParseNegative(d: string)
    requires |d| > 0 && forall k :: 0 <= k < |d| ==> IsAsciiDigit(d[k])
    ensures ParseInt("-" + d) == Some(-(DigitsValue(d) as int))
  {
    NegativeIsStripped(d);
    ParseStrippedNegative("-" + d);
  }

  lemma NegativeIsStripped(d: string)
    requires |d| > 0 && forall k :: 0 <= k < |d| ==> IsAsciiDigit(d[k])
    ensures var s := "-" + d; Strip(s) == s && |s| > 1 && s[0] == '-' && s[1..] == d && AllDigits(d)
  {
    var s := "-" + d;
    AsciiDigitsAreDigits(d);
    AsciiNotSpace(d[|d| - 1]);
    assert !IsSpace('-');
    assert s[0] == '-' && s[|s| - 1] == d[|d| - 1];
    StripPlain(s);
    assert s[1..] == d;
  }

  lemma ParseStrippedNegative(s: string)
    requires Strip(s) == s && |s| > 1 && s[0] == '-' && AllDigits(s[1..])
    ensures ParseInt(s) == Some(-(DigitsValue(s[1..]) as int))
  {
    var t := Strip(s);
    assert |t| > 0 && t[0] == '-';
    assert t[1..] == s[1..];
  }

  lemma AsciiNotSpace(c: char)
    requires IsAsciiDigit(c)
    ensures !IsSpace(c) && c != '-' && c != '+'
  { }

  lemma AsciiDigitsAreDigits(d: string)
    requires forall k :: 0 <= k < |d| ==> IsAsciiDigit(d[k])
    ensures AllDigits(d)
  { }

  /** A string with no whitespace at either end is its own strip. */
  lemma StripPlain(s: string)
    requires |s| > 0 && !IsSpace(s[0]) && !IsSpace(s[|s| - 1])
    ensures Strip(s) == s
  { }

  /** A digit of another script is an integer too: the Arabic-Indic
      digits U+0660 to U+0669 read as 0 to 9. */
  lemma ParseArabicIndicDigit(d: nat)
    requires d < 10
    ensures ParseInt([(0x660 + d) as char]) == Some(d)
  {
    var s := [(0x660 + d) as char];
    assert !IsSpace(s[0]);
    assert Strip(s) == s;
    assert DigitValue(s[0]) == d;
    assert AllDigits(s) && s[..0] == [];
    assert DigitsValue(s) == d;
  }

  /** Text with no digit at all is not an integer. */
  lemma ParseIntNeedsDigit(s: string)
    requires forall k :: 0 <= k < |s| ==> !IsDigit(s[k])
    ensures ParseInt(s).None?
  {
    var t := Strip(s);
    if |t| > 0 {
      assert t[0] in s;
      var body := if t[0] == '-' || t[0] == '+' then t[1..] else t;
      if |body| > 0 {
        assert body[0] in s;
        assert !IsDigit(body[0]);
      }
    }
  }

  /** `get_label(img_path)`: the stem of the file name, split on '_', and
      the second piece read as an integer. */
  function GetLabel(path: string): Result<int, PyError> {
    match SecondField(Stem(BaseName(path)), '_')
    case None => Failure(IndexError)
    case Some(field) =>
      match ParseInt(field)
      case None => Failure(ValueError)
      case Some(v) => Success(v)
  }

  /** A file named `ID_label.jpeg` (with an ID free of '_' and '/') in any
      directory yields its label. */
  lemma GetLabelRoundTrip(dir: string, id: string, grade: int)
    requires '_' !in id && Sep !in id
    ensures EndsWith(BaseName(Join(dir, id + "_" + ShowInt(grade) + ".jpeg")), ".jpeg")
    ensures GetLabel(Join(dir, id + "_" + ShowInt(grade) + ".jpeg")) == Success(grade)
  {
    var field := ShowInt(grade);
    var name := id + "_" + field + "." + "jpeg";
    assert id + "_" + field + ".jpeg" == name;
    ShowIntPlain(grade);
    NoSepInName(id, field);
    BaseNameOfJoin(dir, name);
    assert name[|name| - 5..] == ".jpeg";
    ParseShowInt(grade);
    GetLabelOfName(Join(dir, name), id, field, grade);
  }

  /** `get_label` of a file named `id_field.jpeg` reads `field`. */
  lemma GetLabelOfName(path: string, id: string, field: string, v: int)
    requires '_' !in id && '_' !in field && '.' !in field
    requires BaseName(path) == id + "_" + field + "." + "jpeg"
    requires ParseInt(field) == Some(v)
    ensures GetLabel(path) == Success(v)
  {
    var stem := id + "_" + field;
    assert |stem| > 0;
    StemDropsExtension(stem, "jpeg");
    SecondFieldOf(id, '_', field);
  }

  /** `str(i)` holds only a sign and ASCII digits, so no '_', '.' or
      separator. */
  lemma ShowIntPlain(i: int)
    ensures forall k :: 0 <= k < |ShowInt(i)| ==> ShowInt(i)[k] == '-' || IsAsciiDigit(ShowInt(i)[k])
    ensures '_' !in ShowInt(i) && '.' !in ShowInt(i) && Sep !in ShowInt(i)
  {
    if i < 0 {
      var d := ShowNat(-i);
      assert forall k :: 1 <= k < |ShowInt(i)| ==> ShowInt(i)[k] == d[k - 1];
    }
  }

  /** The file name `id_field.jpeg` holds no separator when `id` and
      `field` do not. */
  lemma NoSepInName(id: string, field: string)
    requires Sep !in id && Sep !in field
    ensures Sep !in id + "_" + field + "." + "jpeg"
  {
    var name := id + "_" + field + "." + "jpeg";
    forall k | 0 <= k < |name| ensures name[k] != Sep {
      if k < |id| { assert name[k] == id[k]; }
      else if |id| < k < |id| + 1 + |field| { assert name[k] == field[k - |id| - 1]; }
    }
  }

  /** A file stem without '_' has no label field: IndexError. */
  lemma GetLabelNoField(path: string)
    requires '_' !in Stem(BaseName(path))
    ensures GetLabel(path) == Failure(IndexError)
  {
  }

  /** A second field with no digit is not an integer: ValueError. */
  lemma GetLabelNotInteger(x: string, field: string, rest: string)
    requires '_' !in x && '_' !in field
    requires forall k :: 0 <= k < |field| ==> !IsDigit(field[k])
    requires Stem(BaseName(rest)) == x + "_" + field
    ensures GetLabel(rest) == Failure(ValueError)
  {
    SecondFieldOf(x, '_', field);
    ParseIntNeedsDigit(field);
  }

  /** The recursive glob for JPEG files: the walked paths whose name ends
      in ".jpeg", in walk order. */
  function CollectJpegs(walk: seq<string>): (r: seq<string>)
    ensures |r| <= |walk|
    ensures forall p :: p in r <==> p in walk && EndsWith(BaseName(p), ".jpeg")
  {
    if |walk| == 0 then []
    else
      var prev := CollectJpegs(walk[..|walk| - 1]);
      var p := walk[|walk| - 1];
      assert walk == walk[..|walk| - 1] + [p];
      if EndsWith(BaseName(p), ".jpeg") then prev + [p] else prev
  }

  /** The index: parallel lists of paths and labels. */
  datatype Index = Index(imagePaths: seq<string>, labels: seq<int>)

  /** `__init__` as written: the comprehension calls `self.get_label`,
      an attribute the class does not have, so construction raises
      AttributeError as soon as one `.jpeg` file exists. */
  function ConstructAsWritten(walk: seq<string>): (r: Result<Index, PyError>)
    ensures r.Success? <==> |CollectJpegs(walk)| == 0
    ensures r.Success? ==> r.value == Index([], [])
  {
    var paths := CollectJpegs(walk);
    if |paths| == 0 then Success(Index([], [])) else Failure(AttributeError)
  }

  /** A directory holding one well-named image `ID_label.jpeg` cannot be
      indexed as written, though the image's label parses. */
  lemma AsWrittenRejectsLabelledImage(dir: string, id: string, grade: int)
    requires '_' !in id && Sep !in id
    ensures var p := Join(dir, id + "_" + ShowInt(grade) + ".jpeg");
      ConstructAsWritten([p]).Failure? && GetLabel(p) == Success(grade)
  {
    var p := Join(dir, id + "_" + ShowInt(grade) + ".jpeg");
    GetLabelRoundTrip(dir, id, grade);
    assert p in CollectJpegs([p]);
  }

  /** `__init__` with the module-level `get_label` called as intended: every
      collected path gets the label its name carries, or construction
      raises the first parse error. */
  function Construct(walk: seq<string>): (r: Result<Index, PyError>)
    ensures r.Success? ==> r.value.imagePaths == CollectJpegs(walk)
    ensures r.Success? ==> |r.value.labels| == |r.value.imagePaths|
    ensures r.Success? ==> forall i :: 0 <= i < |r.value.imagePaths| ==>
      GetLabel(r.value.imagePaths[i]) == Success(r.value.labels[i])
    ensures r.Failure? <==> exists p :: p in CollectJpegs(walk) && GetLabel(p).Failure?
  {
    var paths := CollectJpegs(walk);
    match TryMap(paths, GetLabel)
    case Failure(e) => Failure(e)
    case Success(ls) => Success(Index(paths, ls))
  }

  /** The intended constructor indexes that same directory, with the
      label the name carries. */
  lemma ConstructIndexesLabelledImage(dir: string, id: string, grade: int)
    requires '_' !in id && Sep !in id
    ensures var p := Join(dir, id + "_" + ShowInt(grade) + ".jpeg");
      Construct([p]) == Success(Index([p], [grade]))
  {
    var p := Join(dir, id + "_" + ShowInt(grade) + ".jpeg");
    GetLabelRoundTrip(dir, id, grade);
    CollectOne(p);
    TryMapOne(p, GetLabel);
  }

  lemma CollectOne(p: string)
    requires EndsWith(BaseName(p), ".jpeg")
    ensures CollectJpegs([p]) == [p]
  {
    var paths := CollectJpegs([p]);
    assert p in paths;
    assert |paths| == 1 && paths[0] in [p];
  }

  /** `__len__`: the indices `__getitem__` accepts are exactly those in
      `[-len, len)`. */
  function Len(ix: Index): (n: nat)
    ensures forall idx :: -(n as int) <= idx < n <==> PyIndex(idx, |ix.imagePaths|).Some?
  {
    |ix.imagePaths|
  }

  /** `__getitem__(idx)`: `image_paths[idx]` raises IndexError; a failed
      load or transform is swallowed and gives (None, None); otherwise the
      image and `labels[idx]`. */
  function GetItem<Img>(ix: Index, idx: int, load: string -> Option<Img>): (r: Result<Option<(Img, int)>, PyError>)
    requires |ix.labels| == |ix.imagePaths|
    ensures r.Failure? <==> PyIndex(idx, |ix.imagePaths|).None?
    ensures r.Success? ==> (r.value.None? <==> load(ix.imagePaths[PyIndex(idx, |ix.imagePaths|).value]).None?)
    ensures r.Success? && r.value.Some? ==>
      r.value.value.1 == ix.labels[PyIndex(idx, |ix.imagePaths|).value]
  {
    match PyIndex(idx, |ix.imagePaths|)
    case None => Failure(IndexError)
    case Some(k) =>
      match load(ix.imagePaths[k])
      case None => Success(None)
      case Some(img) => Success(Some((img, ix.labels[k])))
  }

  /** Within `[-len, len)` `__getitem__` never raises, whatever the loader
      does (a failed load is swallowed); outside it always raises
      IndexError. */
  lemma GetItemRaisesOnlyOutOfRange<Img>(ix: Index, load: string -> Option<Img>, idx: int)
    requires |ix.labels| == |ix.imagePaths|
    ensures -(Len(ix) as int) <= idx < Len(ix) <==> GetItem(ix, idx, load).Success?
    ensures GetItem(ix, idx, load).Failure? ==> GetItem(ix, idx, load).error == IndexError
  {
  }
}
