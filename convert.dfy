/** convert_file: the extension picks the direction, and the output path
    swaps `.json` and `.hbjson`. os.path.splitext is modelled as POSIX
    posixpath.splitext: the extension is the last '.' of the last path
    component and what follows it, unless the component is only dots up
    to that point (a hidden file such as `.json` has no extension). */
module Convert {
  import opened Bytes
  import opened Document
  import opened Encoding
  import opened Decoding
  import opened Saver
  import opened Loader

  /** str.rfind for one character: its last index, or -1. */
  function RFind(s: string, c: char): (r: int)
    ensures -1 <= r < |s|
    ensures r >= 0 ==> s[r] == c
    ensures forall k :: r < k < |s| ==> s[k] != c
  {
    if |s| == 0 then -1
    else if s[|s| - 1] == c then |s| - 1
    else RFind(s[..|s| - 1], c)
  }

  /** Some character of s[lo..hi] is not a dot. */
  predicate HasNonDot(s: string, lo: int, hi: int)
    requires 0 <= lo && hi <= |s|
  {
    exists k :: lo <= k < hi && s[k] != '.'
  }

  /** The last path component of `base` holds a character other than '.'. */
  predicate HasStem(base: string)
  {
    HasNonDot(base, RFind(base, '/') + 1, |base|)
  }

  /** An extension: a dot, then characters that are neither '.' nor '/'. */
  predicate IsExt(ext: string)
  {
    |ext| > 0 && ext[0] == '.' && forall k :: 1 <= k < |ext| ==> ext[k] != '.' && ext[k] != '/'
  }

  /** os.path.splitext */
  function SplitExt(path: string): (r: (string, string))
    ensures r.0 + r.1 == path
    ensures r.1 == [] || (IsExt(r.1) && HasStem(r.0))
  {
    var sep := RFind(path, '/');
    var dot := RFind(path, '.');
    if dot > sep && HasNonDot(path, sep + 1, dot) then
      RFindPrefix(path, dot, '/');
      (path[..dot], path[dot..])
    else (path, [])
  }

  /** `base + (".hbjson" if ext == ".json" else ".json")` */
  function OutputPath(path: string): string
  {
    var (base, ext) := SplitExt(path);
    base + (if ext == ".json" then ".hbjson" else ".json")
  }

  /** The branch convert_file takes. */
  datatype Conversion = ToHBJson | ToJson | Unsupported

  function Plan(path: string): Conversion
  {
    var ext := SplitExt(path).1;
    if ext == ".json" then ToHBJson
    else if ext == ".hbjson" then ToJson
    else Unsupported
  }

  // ---------------------------------------------------------------------
  // splitext on a path that ends with an extension

  /** Dropping characters after the last c keeps the last c. */
  lemma {:induction false} RFindPrefix(s: string, n: nat, c: char)
    requires n <= |s| && forall k :: n <= k < |s| ==> s[k] != c
    ensures RFind(s[..n], c) == RFind(s, c)
    decreases |s|
  {
    if n < |s| {
      assert s[..|s| - 1][..n] == s[..n];
      RFindPrefix(s[..|s| - 1], n, c);
    } else {
      assert s[..n] == s;
    }
  }

  lemma {:induction false} RFindAppend(a: string, b: string, c: char)
    ensures RFind(a + b, c) == if c in b then |a| + RFind(b, c) else RFind(a, c)
    decreases |b|
  {
    if |b| > 0 {
      var s := a + b;
      assert s[..|s| - 1] == a + b[..|b| - 1];
      if b[|b| - 1] != c {
        RFindAppend(a, b[..|b| - 1], c);
        assert c in b <==> c in b[..|b| - 1];
        if c in b {
          RFindPrefix(b, |b| - 1, c);
        }
      }
    } else {
      assert a + b == a;
    }
  }

  /** A path made of a base and an extension splits back into the two,
      unless the base's last component is only dots. */
  lemma SplitExtOf(base: string, ext: string)
    requires IsExt(ext)
    ensures SplitExt(base + ext) == if HasStem(base) then (base, ext) else (base + ext, [])
  {
    var path := base + ext;
    assert '/' !in ext;
    assert ext == [ext[0]] + ext[1..] && '.' !in ext[1..];
    RFindAppend(base, ext, '/');
    RFindAppend(base, ext, '.');
    assert RFind(ext, '.') == 0 by {
      RFindAppend([ext[0]], ext[1..], '.');
    }
    var sep := RFind(base, '/');
    assert RFind(path, '/') == sep && RFind(path, '.') == |base|;
    assert path[..|base|] == base && path[|base|..] == ext;
    if HasStem(base) {
      var k :| sep + 1 <= k < |base| && base[k] != '.';
      assert path[k] == base[k];
    } else {
      assert !HasNonDot(path, sep + 1, |base|) by {
        forall k | sep + 1 <= k < |base| ensures path[k] == '.' {
          assert path[k] == base[k];
        }
      }
    }
  }

  /** foo.json becomes foo.hbjson and foo.hbjson becomes foo.json: the
      output of a conversion converts back, in the other direction, to
      the path it came from. */
  lemma OutputPathSwaps(path: string)
    requires Plan(path) != Unsupported
    ensures Plan(OutputPath(path)) == if Plan(path) == ToHBJson then ToJson else ToHBJson
    ensures OutputPath(OutputPath(path)) == path
  {
    var (base, ext) := SplitExt(path);
    var other := if ext == ".json" then ".hbjson" else ".json";
    assert IsExt(other);
    SplitExtOf(base, other);
    SplitExtOf(base, ext);
  }

  /** Any other extension, or none, converts nothing. */
  lemma UnsupportedExamples()
    ensures Plan("notes.txt") == Unsupported
    ensures Plan("cache") == Unsupported
    ensures Plan("dir/.json") == Unsupported
    ensures Plan("archive.json.bak") == Unsupported
  {
    SplitExtOf("notes", ".txt");
    assert "notes.txt" == "notes" + ".txt";
    assert "dir/.json" == "dir/" + ".json";
    SplitExtOf("dir/", ".json");
    assert "archive.json.bak" == "archive.json" + ".bak";
    SplitExtOf("archive.json", ".bak");
  }

  /** foo.json is written to foo.hbjson, and foo.hbjson to foo.json. */
  lemma ConversionExamples()
    ensures Plan("foo.json") == ToHBJson && OutputPath("foo.json") == "foo.hbjson"
    ensures Plan("foo.hbjson") == ToJson && OutputPath("foo.hbjson") == "foo.json"
  {
    assert "foo.json" == "foo" + ".json";
    SplitExtOf("foo", ".json");
    assert "foo.hbjson" == "foo" + ".hbjson";
    SplitExtOf("foo", ".hbjson");
  }

  // ---------------------------------------------------------------------
  // convert_file

  /** What convert_file produces: the bytes of the .hbjson file it writes,
      the result of loading the .hbjson file (which it then dumps as
      JSON), or nothing. */
  datatype Converted =
    | SavedHBJson(output: string, bytes: seq<byte>)
    | LoadedHBJson(output: string, result: Outcome<Value>)
    | NotConverted

  /** The result of a load, as the loader class reports it. */
  function Reported(p: Parse): Outcome<Value>
  {
    match p
    case Parsed(v, _, _) => Done(v)
    case Failed(e) => Raised(e)
  }

  /** convert_file, with the input file given as its parsed JSON document
      (for .json) and its bytes (for .hbjson). */
  method ConvertFile(path: string, document: Value, contents: seq<byte>) returns (r: Converted)
    requires Plan(path) == ToHBJson ==> document.Obj? && EntriesEncodable(document.entries)
    ensures Plan(path) == ToHBJson ==> r == SavedHBJson(OutputPath(path), EncodeDocument(document))
    ensures Plan(path) == ToJson ==> r == LoadedHBJson(OutputPath(path), Reported(Decode(contents)))
    ensures Plan(path) == Unsupported ==> r == NotConverted
  {
    var (base, ext) := SplitExt(path);
    var outputPath := base + (if ext == ".json" then ".hbjson" else ".json");
    if ext == ".json" {
      var saver := new PointCacheSaver(document);
      saver.Save();
      r := SavedHBJson(outputPath, saver.buffer.data);
    } else if ext == ".hbjson" {
      var loader := new PointCacheLoader();
      var data := loader.Load(contents);
      r := LoadedHBJson(outputPath, data);
    } else {
      r := NotConverted;
    }
  }
}
