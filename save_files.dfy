/** File-name handling shared by both PlayerManager variants: where a save
    file goes, which files of a folder listing belong to a kind of save,
    and the name a file stands for. The file system itself is not modelled:
    a folder listing is a sequence of file names given by the caller. */
module SaveFiles {
  import opened Wrappers

  /** `string.EndsWith` for an ordinal comparison: `s` is some prefix
      followed by `suffix`. */
  predicate EndsWith(s: string, suffix: string)
    ensures EndsWith(s, suffix) ==> |suffix| <= |s| && s == s[..|s| - |suffix|] + suffix
  {
    |suffix| <= |s| && s[|s| - |suffix|..] == suffix
  }

  /** Whatever precedes it, a name that ends with the suffix ends with it. */
  lemma EndsWithAppended(prefix: string, suffix: string)
    ensures EndsWith(prefix + suffix, suffix)
  {
    assert (prefix + suffix)[|prefix|..] == suffix;
  }

  /** `string.IsNullOrEmpty` on a save folder. */
  predicate FolderUnset(folder: Option<string>)
  {
    folder.None? || folder.value == ""
  }

  /** `Path.Combine(folder, name + extension)`, kept as its two parts. */
  datatype SavePath = SavePath(folder: string, fileName: string)

  function GetPath(folder: string, name: string, extension: string): (p: SavePath)
    ensures p.folder == folder && EndsWith(p.fileName, extension)
    ensures |name| <= |p.fileName| && p.fileName[..|name|] == name
    ensures |p.fileName| == |name| + |extension|
  {
    SavePath(folder, name + extension)
  }

  /** The entries of a listing that end with the extension, in listing
      order: the files `LoadAll` reads. */
  function Matching(files: seq<string>, extension: string): (r: seq<string>)
    ensures |r| <= |files|
    ensures forall f :: f in r <==> f in files && EndsWith(f, extension)
  {
    if files == [] then []
    else
      var last := files[|files| - 1];
      Matching(files[..|files| - 1], extension) + (if EndsWith(last, extension) then [last] else [])
  }

  /** Filtering a listing split in two is filtering each part: the kept
      files stay in listing order. */
  lemma {:induction false} MatchingConcat(a: seq<string>, b: seq<string>, extension: string)
    ensures Matching(a + b, extension) == Matching(a, extension) + Matching(b, extension)
    decreases |b|
  {
    if b != [] {
      var last := b[|b| - 1];
      assert (a + b)[..|a + b| - 1] == a + b[..|b| - 1];
      MatchingConcat(a, b[..|b| - 1], extension);
    } else {
      assert a + b == a;
    }
  }

  /** The loaded or created items, one per kept file, in order. */
  function MapFiles<T>(files: seq<string>, f: string -> T): (r: seq<T>)
    ensures |r| == |files| && forall i | 0 <= i < |files| :: r[i] == f(files[i])
  {
    seq(|files|, i requires 0 <= i < |files| => f(files[i]))
  }

  /** Mapping distributes over one appended file. */
  lemma MapFilesAppend<T>(files: seq<string>, file: string, f: string -> T)
    ensures MapFiles(files + [file], f) == MapFiles(files, f) + [f(file)]
  {
  }

  /** Position of the last `c` in `s`, or -1. */
  function LastIndexOf(s: string, c: char): (k: int)
    ensures -1 <= k < |s|
    ensures k >= 0 ==> s[k] == c
    ensures forall j | k < j < |s| :: s[j] != c
  {
    if s == [] then -1
    else if s[|s| - 1] == c then |s| - 1
    else LastIndexOf(s[..|s| - 1], c)
  }

  /** The directory separators of a Windows path: `\\` and `/`. */
  predicate IsSeparator(c: char)
  {
    c == '\\' || c == '/'
  }

  /** Position of the last directory separator in `s`, or -1. */
  function LastSeparator(s: string): (k: int)
    ensures -1 <= k < |s|
    ensures k >= 0 ==> IsSeparator(s[k])
    ensures forall j | k < j < |s| :: !IsSeparator(s[j])
  {
    if s == [] then -1
    else if IsSeparator(s[|s| - 1]) then |s| - 1
    else LastSeparator(s[..|s| - 1])
  }

  /** `Path.GetFileName`: what follows the last directory separator, or the
      whole path when it has none. */
  function FileName(path: string): (r: string)
    ensures |r| <= |path| && r == path[|path| - |r|..]
  {
    path[LastSeparator(path) + 1..]
  }

  /** The file name is the last component of the path: it holds no
      separator, and a separator precedes it unless it is the whole path. */
  lemma FileNameIsLastComponent(path: string)
    ensures var r := FileName(path);
      && (forall j | 0 <= j < |r| :: !IsSeparator(r[j]))
      && (|r| < |path| ==> IsSeparator(path[|path| - |r| - 1]))
  {
  }

  /** `Path.GetFileNameWithoutExtension`: the file name of the path up to
      its last period, or the whole file name when it has none. */
  function FileNameWithoutExtension(file: string): (r: string)
    ensures var name := FileName(file);
      && |r| <= |name| && r == name[..|r|]
      && ('.' in name ==> |r| < |name| && name[|r|] == '.' && '.' !in name[|r| + 1..])
      && ('.' !in name ==> r == name)
  {
    var name := FileName(file);
    var k := LastIndexOf(name, '.');
    if k < 0 then name else name[..k]
  }

  /** The file name of a path inside a folder is what follows the folder. */
  lemma FileNameAfterFolder(folder: string, file: string)
    requires folder == [] || IsSeparator(folder[|folder| - 1])
    requires forall j | 0 <= j < |file| :: !IsSeparator(file[j])
    ensures FileName(folder + file) == file
  {
    var path := folder + file;
    forall j | |folder| <= j < |path| ensures !IsSeparator(path[j]) {
      assert path[j] == file[j - |folder|];
    }
    if folder != [] {
      assert path[|folder| - 1] == folder[|folder| - 1];
    }
    assert LastSeparator(path) == |folder| - 1;
    assert path[|folder|..] == file;
  }

  /** A save file named after `name`, inside any folder, gives `name` back,
      for a name without separators and an extension made of one leading
      period and no other. */
  lemma NameRoundTrip(folder: string, name: string, extension: string)
    requires folder == [] || IsSeparator(folder[|folder| - 1])
    requires forall j | 0 <= j < |name| :: !IsSeparator(name[j])
    requires |extension| > 0 && extension[0] == '.' && '.' !in extension[1..]
    requires forall j | 0 <= j < |extension| :: !IsSeparator(extension[j])
    ensures FileNameWithoutExtension(folder + name + extension) == name
  {
    var file := name + extension;
    assert folder + name + extension == folder + file;
    forall j | 0 <= j < |file| ensures !IsSeparator(file[j]) {
      if j < |name| { assert file[j] == name[j]; } else { assert file[j] == extension[j - |name|]; }
    }
    FileNameAfterFolder(folder, file);
    forall j | |name| < j < |file| ensures file[j] != '.' {
      assert file[j] == extension[1..][j - |name| - 1];
    }
    assert file[|name|] == '.';
    assert LastIndexOf(file, '.') == |name|;
    assert file[..|name|] == name;
  }
}
