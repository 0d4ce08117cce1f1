/** The supported-format test of the player: a file is accepted when the
    lower-cased suffix of its name (pathlib's `suffix`) is one of
    `AudioFormats.EXTENSIONS`. Paths are POSIX paths. */
module AudioFormats {

  /** AudioFormats.EXTENSIONS. */
  const Extensions: set<string> := {".mp3", ".ogg", ".wav", ".flac", ".mod", ".xm", ".it", ".s3m"}

  /** str.lower() on one character, for the ASCII letters. */
  function LowerChar(c: char): char
  {
    if 'A' <= c <= 'Z' then (c as int - 'A' as int + 'a' as int) as char else c
  }

  function Lower(s: string): (r: string)
    ensures |r| == |s|
    ensures forall i :: 0 <= i < |s| ==> r[i] == LowerChar(s[i])
  {
    seq(|s|, i requires 0 <= i < |s| => LowerChar(s[i]))
  }

  /** The longest tail of `path` that holds no '/'. */
  function LastComponent(path: string): (r: string)
    ensures |r| <= |path| && r == path[|path| - |r|..]
    ensures '/' !in r
    ensures |r| < |path| ==> path[|path| - |r| - 1] == '/'
  {
    if path == [] || path[|path| - 1] == '/' then []
    else LastComponent(path[..|path| - 1]) + [path[|path| - 1]]
  }

  /** pathlib's `name`: the last component of the path, where trailing
      separators and `.` components do not count; "" when there is none. */
  function Name(path: string): (r: string)
    ensures '/' !in r && r != "."
    decreases |path|
  {
    if path == [] then []
    else if path[|path| - 1] == '/' then Name(path[..|path| - 1])
    else
      var c := LastComponent(path);
      if c == "." then Name(path[..|path| - 1]) else c
  }

  /** str.rfind: the last position of `c` in `s`, or -1. */
  function RFind(s: string, c: char): (i: int)
    ensures -1 <= i < |s|
    ensures i >= 0 ==> s[i] == c
    ensures forall j :: i < j < |s| ==> s[j] != c
  {
    if s == [] then -1
    else if s[|s| - 1] == c then |s| - 1
    else RFind(s[..|s| - 1], c)
  }

  /** A position of `c` with no `c` after it is the one str.rfind finds. */
  lemma RFindAt(s: string, c: char, i: nat)
    requires i < |s| && s[i] == c
    requires forall j :: i < j < |s| ==> s[j] != c
    ensures RFind(s, c) == i
  {
  }

  /** pathlib's `suffix` of a name: from its last '.' to the end, unless that
      dot is the first or the last character, in which case "". */
  function Suffix(name: string): (r: string)
    ensures r == [] || (2 <= |r| < |name| && r == name[|name| - |r|..] && r[0] == '.' && '.' !in r[1..])
  {
    var i := RFind(name, '.');
    if 0 < i < |name| - 1 then name[i..] else []
  }

  /** When a name has a suffix: its last character is not a dot, and a dot
      sits somewhere after its first character. */
  lemma SuffixNonEmpty(name: string)
    ensures Suffix(name) != [] <==>
      2 <= |name| && name[|name| - 1] != '.' && exists i :: 0 < i < |name| - 1 && name[i] == '.'
  {
  }

  /** A path with no separator, other than ".", is its own name. */
  lemma NameOfPlainPath(path: string)
    requires '/' !in path && path != "."
    ensures Name(path) == path
  {
  }

  /** The directories in front of a name do not change it. */
  lemma NameInDirectory(dir: string, name: string)
    requires '/' !in name && name != [] && name != "."
    ensures Name(dir + "/" + name) == name
  {
    var path := dir + "/" + name;
    assert path[|dir| + 1..] == name;
    LastComponentAfter(path, |dir| + 1);
  }

  /** A trailing separator does not change the name. */
  lemma NameTrailingSlash(path: string)
    ensures Name(path + "/") == Name(path)
  {
    assert (path + "/")[..|path|] == path;
  }

  /** A trailing "." component does not change the name. */
  lemma NameTrailingDot(path: string)
    ensures Name(path + "/.") == Name(path + "/")
  {
    var p := path + "/.";
    assert p[..|p| - 1] == path + "/";
    LastComponentAfter(p, |path| + 1);
  }

  /** `Path(file).suffix.lower() in AudioFormats.EXTENSIONS`. */
  predicate IsSupported(path: string)
  {
    Lower(Suffix(Name(path))) in Extensions
  }

  /** The files of `files` that pass the format test, in their order. */
  function Supported(files: seq<string>): (r: seq<string>)
    ensures |r| <= |files|
  {
    if files == [] then []
    else
      var last := files[|files| - 1];
      Supported(files[..|files| - 1]) + (if IsSupported(last) then [last] else [])
  }

  /** One more file of a prefix: the filter of the longer prefix adds that
      file exactly when it passes the test. */
  lemma SupportedStep(files: seq<string>, i: nat)
    requires i < |files|
    ensures Supported(files[..i + 1]) == Supported(files[..i]) + (if IsSupported(files[i]) then [files[i]] else [])
  {
    assert files[..i + 1][..i] == files[..i];
  }

  /** The filtering loop of add_files and add_folder: walks the files in
      order and keeps each one that passes the test. */
  method FilterSupported(files: seq<string>) returns (kept: seq<string>)
    ensures kept == Supported(files)
  {
    kept := [];
    for i := 0 to |files|
      invariant kept == Supported(files[..i])
    {
      SupportedStep(files, i);
      if IsSupported(files[i]) {
        kept := kept + [files[i]];
      }
    }
    assert files[..|files|] == files;
  }

  /** The filter keeps a file exactly when it is in the input and passes the test. */
  lemma {:induction false} SupportedMembers(files: seq<string>, x: string)
    ensures x in Supported(files) <==> x in files && IsSupported(x)
    decreases |files|
  {
    if files != [] {
      var p := files[..|files| - 1];
      assert files == p + [files[|files| - 1]];
      SupportedMembers(p, x);
    }
  }

  /** Filtering a concatenation filters each part and keeps them in order. */
  lemma {:induction false} SupportedAppend(a: seq<string>, b: seq<string>)
    ensures Supported(a + b) == Supported(a) + Supported(b)
    decreases |b|
  {
    if b == [] {
      assert a + b == a;
    } else {
      var b' := b[..|b| - 1];
      assert (a + b)[..|a + b| - 1] == a + b';
      SupportedAppend(a, b');
    }
  }

  /** No accepted path is the empty string: "" has no suffix. */
  lemma EmptyPathUnsupported(files: seq<string>)
    ensures !IsSupported("")
    ensures "" !in Supported(files)
  {
    assert Name("") == "";
    assert Suffix("") == "";
    SupportedMembers(files, "");
  }

  lemma LowerIdempotent(s: string)
    ensures Lower(Lower(s)) == Lower(s)
  {
  }

  lemma LowerAppend(a: string, b: string)
    ensures Lower(a + b) == Lower(a) + Lower(b)
  {
  }

  lemma {:induction false} LastComponentLower(path: string)
    ensures LastComponent(Lower(path)) == Lower(LastComponent(path))
    decreases |path|
  {
    if path != [] {
      var p, last := path[..|path| - 1], path[|path| - 1];
      assert path == p + [last];
      LowerAppend(p, [last]);
      var low := Lower(p) + [LowerChar(last)];
      assert Lower(path) == low;
      if last != '/' {
        assert low[..|low| - 1] == Lower(p);
        LastComponentLower(p);
        LowerAppend(LastComponent(p), [last]);
      }
    }
  }

  /** Lowering a path commutes with taking its name: '/' and '.' are not letters. */
  lemma {:induction false} NameLower(path: string)
    ensures Name(Lower(path)) == Lower(Name(path))
    decreases |path|
  {
    if path != [] {
      var p := path[..|path| - 1];
      assert Lower(path)[..|path| - 1] == Lower(p);
      if path[|path| - 1] == '/' {
        NameLower(p);
      } else {
        LastComponentLower(path);
        var c := LastComponent(path);
        assert Lower(c) == "." <==> c == ".";
        if c == "." {
          NameLower(p);
        }
      }
    }
  }

  lemma {:induction false} RFindLower(s: string, c: char)
    requires c == '.'
    ensures RFind(Lower(s), c) == RFind(s, c)
    decreases |s|
  {
    if s != [] {
      assert Lower(s)[..|s| - 1] == Lower(s[..|s| - 1]);
      RFindLower(s[..|s| - 1], c);
    }
  }

  lemma SuffixLower(name: string)
    ensures Suffix(Lower(name)) == Lower(Suffix(name))
  {
    RFindLower(name, '.');
    var i := RFind(name, '.');
    if 0 < i < |name| - 1 {
      assert Lower(name)[i..] == Lower(name[i..]);
    }
  }

  /** The format test is case-insensitive: it accepts a path exactly when it
      accepts the path written in lower case. */
  lemma SupportedIgnoresCase(path: string)
    ensures IsSupported(Lower(path)) <==> IsSupported(path)
  {
    NameLower(path);
    SuffixLower(Name(path));
    LowerIdempotent(Suffix(Name(path)));
  }

  /** The tail after the last '/' is the last component. */
  lemma LastComponentAfter(path: string, k: nat)
    requires k <= |path|
    requires k == 0 || path[k - 1] == '/'
    requires forall j :: k <= j < |path| ==> path[j] != '/'
    ensures LastComponent(path) == path[k..]
  {
  }

  /** The suffix of a name whose last dot sits at `i`, neither first nor last. */
  lemma SuffixAt(name: string, i: nat)
    requires 0 < i < |name| - 1 && name[i] == '.'
    requires forall j :: i < j < |name| ==> name[j] != '.'
    ensures Suffix(name) == name[i..]
  {
    RFindAt(name, '.', i);
  }

  /** Worked cases of the test: the name decides, not the directories or the
      letter case. */
  lemma SupportedExampleUpperCase()
    ensures IsSupported("cd/T.MP3")
  {
    LastComponentAfter("cd/T.MP3", 3);
    assert Name("cd/T.MP3") == "T.MP3";
    RFindAt("T.MP3", '.', 1);
    assert Suffix("T.MP3") == ".MP3";
    assert Lower(".MP3") == ".mp3";
  }

  /** Only the last suffix decides. */
  lemma SupportedExampleLastSuffix()
    ensures IsSupported("a.txt.xm")
  {
    LastComponentAfter("a.txt.xm", 0);
    assert Name("a.txt.xm") == "a.txt.xm";
    RFindAt("a.txt.xm", '.', 5);
    assert Suffix("a.txt.xm") == ".xm";
    assert Lower(".xm") == ".xm";
  }

  /** A supported suffix that is not the last one does not count. */
  lemma SupportedExampleInnerSuffix()
    ensures !IsSupported("a.xm.txt")
  {
    LastComponentAfter("a.xm.txt", 0);
    assert Name("a.xm.txt") == "a.xm.txt";
    RFindAt("a.xm.txt", '.', 4);
    assert Suffix("a.xm.txt") == ".txt";
    assert Lower(".txt") == ".txt";
  }

  /** A name that starts with its only dot, such as ".mp3", has no suffix. */
  lemma SupportedExampleHiddenName()
    ensures !IsSupported("cd/.mp3")
  {
    LastComponentAfter("cd/.mp3", 3);
    RFindAt(".mp3", '.', 0);
  }

  /** A trailing separator does not count: a directory named like a track passes. */
  lemma SupportedExampleTrailingSlash()
    ensures IsSupported("cd/s.ogg/")
  {
    assert "cd/s.ogg/"[..8] == "cd/s.ogg";
    LastComponentAfter("cd/s.ogg", 3);
    assert Name("cd/s.ogg/") == "s.ogg";
    RFindAt("s.ogg", '.', 1);
    assert Suffix("s.ogg") == ".ogg";
    assert Lower(".ogg") == ".ogg";
  }
}
