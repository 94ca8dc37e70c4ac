/**
  The path helpers of FileAPI: base_name and remove_extension, and the
  filtering that list_files applies on POSIX to the names a directory
  enumeration yields, in enumeration order.
*/
module FileNames {
  import opened Common

  /** The index of the last character of s that is in cs, or -1 (npos) when there is none. */
  function LastOf(s: string, cs: set<char>): (r: int)
    ensures -1 <= r < |s|
    ensures r >= 0 ==> s[r] in cs
    ensures forall i :: r < i < |s| ==> s[i] !in cs
    decreases |s|
  {
    if |s| == 0 then -1
    else if s[|s| - 1] in cs then |s| - 1
    else LastOf(s[..|s| - 1], cs)
  }

  /** The default delimiters of base_name: slash and backslash. */
  const Delims: set<char> := {'/', '\\'}

  /**
    base_name(path): the part after the last delimiter. find_last_of
    answers npos when there is none, and npos + 1 wraps to 0, so the whole
    path is returned.
  */
  function BaseName(path: string, delims: set<char>): (r: string)
  {
    path[LastOf(path, delims) + 1..]
  }

  /**
    base_name returns a suffix of the path holding no delimiter, preceded
    in the path by a delimiter unless it is the whole path.
  */
  lemma BaseNameSpec(path: string, delims: set<char>)
    ensures var r := BaseName(path, delims);
            && |r| <= |path| && r == path[|path| - |r|..]
            && (forall i :: 0 <= i < |r| ==> r[i] !in delims)
            && (|r| < |path| ==> path[|path| - |r| - 1] in delims)
  {
    var k := LastOf(path, delims);
    var r := BaseName(path, delims);
    forall i | 0 <= i < |r| ensures r[i] !in delims {
      assert r[i] == path[k + 1 + i];
    }
  }

  /** A path that ends in a delimiter has an empty base name. */
  lemma BaseNameOfDirectory(path: string, delims: set<char>)
    requires |path| > 0 && path[|path| - 1] in delims
    ensures BaseName(path, delims) == ""
  {
  }

  /** A path without delimiters is its own base name. */
  lemma BaseNameWithoutDelims(path: string, delims: set<char>)
    requires forall i :: 0 <= i < |path| ==> path[i] !in delims
    ensures BaseName(path, delims) == path
  {
  }

  /**
    remove_extension(filename): cut at the last '.', but only when that dot
    exists and is not the first character.
  */
  function RemoveExtension(name: string): (r: string)
    ensures |r| <= |name| && r == name[..|r|]
  {
    var p := LastOf(name, {'.'});
    if p > 0 then name[..p] else name
  }

  /** Exactly the final extension goes: what is cut is a dot followed by no other dot. */
  lemma RemoveExtensionSpec(name: string)
    ensures var r := RemoveExtension(name);
            || r == name
            || (&& 0 < |r| < |name| && name[|r|] == '.'
                && forall i :: |r| < i < |name| ==> name[i] != '.')
  {
  }

  /** Nothing is removed when there is no dot, or when the only dot leads the name. */
  lemma RemoveExtensionKeeps(name: string)
    requires forall i :: 0 < i < |name| ==> name[i] != '.'
    ensures RemoveExtension(name) == name
  {
    var p := LastOf(name, {'.'});
    assert p <= 0;
  }

  /** Putting an extension on a dot-free stem and removing it gives the stem back. */
  lemma RemoveExtensionOfStem(stem: string, ext: string)
    requires |stem| > 0
    requires forall i :: 0 <= i < |ext| ==> ext[i] != '.'
    ensures RemoveExtension(stem + "." + ext) == stem
  {
    var s := stem + "." + ext;
    assert s[|stem|] == '.';
    forall i | |stem| < i < |s| ensures s[i] != '.' {
      assert s[i] == ext[i - |stem| - 1];
    }
  }

  /** A name the enumeration yields that list_files skips: hidden entries and ".", "..". */
  predicate Hidden(name: string) {
    |name| > 0 && name[0] == '.'
  }

  /** The suffix test: strictly longer than the suffix and ending with it. */
  predicate HasSuffix(name: string, suffix: string) {
    |name| > |suffix| && name[|name| - |suffix|..] == suffix
  }

  /** The entry list_files appends: folder + "/" + name, or the bare name when rm_folder_path is set. */
  function Entry(folder: string, rmFolder: bool, name: string): string {
    if rmFolder then name else folder + "/" + name
  }

  /**
    The names list_files appends for the enumerated `names`, in order. A
    null suffix (None) makes it return at the first visible entry, having
    appended nothing.
  */
  function ListFiles(folder: string, suffix: Option<string>, rmFolder: bool, names: seq<string>): (r: seq<string>)
    decreases |names|
  {
    if |names| == 0 then []
    else if Hidden(names[0]) then ListFiles(folder, suffix, rmFolder, names[1..])
    else if suffix.None? then []
    else if !HasSuffix(names[0], suffix.value) then ListFiles(folder, suffix, rmFolder, names[1..])
    else [Entry(folder, rmFolder, names[0])] + ListFiles(folder, suffix, rmFolder, names[1..])
  }

  /** With a null suffix nothing is ever listed. */
  lemma {:induction false} NullSuffixListsNothing(folder: string, rmFolder: bool, names: seq<string>)
    ensures ListFiles(folder, None, rmFolder, names) == []
    decreases |names|
  {
    if |names| > 0 && Hidden(names[0]) {
      NullSuffixListsNothing(folder, rmFolder, names[1..]);
    }
  }

  /** Listing a concatenated enumeration lists each part in turn, so enumeration order is kept. */
  lemma {:induction false} ListFilesAppend(folder: string, suffix: string, rmFolder: bool, a: seq<string>, b: seq<string>)
    ensures ListFiles(folder, Some(suffix), rmFolder, a + b)
         == ListFiles(folder, Some(suffix), rmFolder, a) + ListFiles(folder, Some(suffix), rmFolder, b)
    decreases |a|
  {
    if |a| == 0 {
      assert a + b == b;
    } else {
      var ab := a + b;
      assert ab[0] == a[0];
      assert ab[1..] == a[1..] + b;
      ListFilesAppend(folder, suffix, rmFolder, a[1..], b);
    }
  }

  /** With rm_folder_path set, a name is listed exactly when it is visible and carries the suffix. */
  lemma {:induction false} ListedIff(suffix: string, names: seq<string>, x: string)
    ensures x in ListFiles("", Some(suffix), true, names) <==> x in names && !Hidden(x) && HasSuffix(x, suffix)
    decreases |names|
  {
    if |names| > 0 {
      ListedIff(suffix, names[1..], x);
      assert names == [names[0]] + names[1..];
      assert x in names <==> x == names[0] || x in names[1..];
    }
  }
}
