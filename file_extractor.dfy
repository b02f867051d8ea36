/**
 * `FileExtractor`: finding the parts of an unzipped import bundle by name.
 * A directory is modelled by its listing, the entries in the order
 * `File.listFiles` returns them; only names, kinds and the listings of
 * sub-directories matter here.
 */
module FileExtractor {
  import opened Wrappers
  import opened Text

  datatype EntryKind = RegularFile | Directory | OtherKind

  /** A directory entry: its name (`File.getName`), its kind and, for a directory, its own listing. */
  datatype Entry = Entry(name: string, kind: EntryKind, listing: seq<Entry>)

  const DATA_FOLDER_NAME: string := "data"

  /** `String.lastIndexOf(c)`: the last position of `c`, or -1. */
  function LastIndexOf(s: string, c: char): (k: int)
    ensures -1 <= k < |s|
    ensures k >= 0 ==> s[k] == c
    ensures forall i :: k < i < |s| ==> s[i] != c
  {
    if s == [] then -1
    else if s[|s| - 1] == c then |s| - 1
    else LastIndexOf(s[..|s| - 1], c)
  }

  /**
   * `getExtension(f)`: the text after the last '.', or "" when the name has
   * no dot, starts with its only dot, or ends with a dot.
   */
  function GetExtension(fileName: string): string
  {
    var dotPos := LastIndexOf(fileName, '.');
    if 0 < dotPos < |fileName| - 1 then fileName[dotPos + 1..] else ""
  }

  /**
   * The extension is a proper, dot-free suffix of the name, preceded by a dot
   * that is not the first character.
   */
  lemma ExtensionIsSuffix(fileName: string)
    ensures var ext := GetExtension(fileName);
      && |ext| <= |fileName|
      && EndsWith(fileName, ext)
      && (forall i :: 0 <= i < |ext| ==> ext[i] != '.')
      && (ext != [] ==> |ext| + 1 < |fileName| && fileName[|fileName| - |ext| - 1] == '.')
  {
  }

  /** The three cases in which there is no extension. */
  lemma NoExtensionCases(fileName: string)
    ensures GetExtension(fileName) == [] <==>
      (forall i :: 0 <= i < |fileName| ==> fileName[i] != '.')
      || (fileName != [] && fileName[0] == '.' && forall i :: 0 < i < |fileName| ==> fileName[i] != '.')
      || (fileName != [] && fileName[|fileName| - 1] == '.')
  {
    var dotPos := LastIndexOf(fileName, '.');
    if dotPos == -1 {
    } else if dotPos == 0 {
    } else if dotPos == |fileName| - 1 {
    } else {
      assert fileName[dotPos] == '.' && fileName[|fileName| - 1] != '.';
    }
  }

  /** A non-empty stem, a dot and a dot-free, non-empty extension: that extension is what is read back. */
  lemma ExtensionOfStemAndExtension(stem: string, ext: string)
    requires stem != [] && ext != []
    requires forall i :: 0 <= i < |ext| ==> ext[i] != '.'
    ensures GetExtension(stem + "." + ext) == ext
  {
    var name := stem + "." + ext;
    assert name[|stem|] == '.';
    assert forall i :: |stem| < i < |name| ==> name[i] == ext[i - |stem| - 1];
    assert name[|stem| + 1..] == ext;
  }

  /** The filter of `getFilesWithExtension`: a regular file whose extension equals `extension` ignoring case. */
  predicate HasExtension(e: Entry, extension: string)
  {
    e.kind == RegularFile && EqualsIgnoreCase(GetExtension(e.name), extension)
  }

  /** `getFilesWithExtension(dir, extension)`: the matching entries, in listing order. */
  function GetFilesWithExtension(listing: seq<Entry>, extension: string): (files: seq<Entry>)
    ensures forall e :: e in files ==> e in listing && HasExtension(e, extension)
    ensures forall e :: e in listing && HasExtension(e, extension) ==> e in files
  {
    if listing == [] then []
    else if HasExtension(listing[0], extension) then [listing[0]] + GetFilesWithExtension(listing[1..], extension)
    else GetFilesWithExtension(listing[1..], extension)
  }

  /** The first of the matching entries is the first matching entry of the listing. */
  lemma {:induction false} FirstFileWithExtension(listing: seq<Entry>, extension: string)
    ensures var files := GetFilesWithExtension(listing, extension);
      files != [] ==> exists k :: (0 <= k < |listing| && listing[k] == files[0]
                                   && forall j :: 0 <= j < k ==> !HasExtension(listing[j], extension))
  {
    if listing != [] && !HasExtension(listing[0], extension) {
      var files := GetFilesWithExtension(listing, extension);
      FirstFileWithExtension(listing[1..], extension);
      if files != [] {
        var k :| 0 <= k < |listing[1..]| && listing[1..][k] == files[0]
          && (forall j :: 0 <= j < k ==> !HasExtension(listing[1..][j], extension));
        assert listing[k + 1] == files[0];
      }
    }
  }

  /** `getXMLfiles(dir)`. */
  function GetXMLfiles(listing: seq<Entry>): seq<Entry>
  {
    GetFilesWithExtension(listing, "xml")
  }

  /** `getFolders(dir)`: the sub-directories, in listing order. */
  function GetFolders(listing: seq<Entry>): (folders: seq<Entry>)
    ensures forall e :: e in folders <==> e in listing && e.kind == Directory
  {
    if listing == [] then []
    else if listing[0].kind == Directory then [listing[0]] + GetFolders(listing[1..])
    else GetFolders(listing[1..])
  }

  /**
   * `findFileNoCase(dir, filename)`: the first regular file whose name equals
   * `filename` ignoring case; `None` stands for the exception `files[0]`
   * raises on an empty result.
   */
  function FindFileNoCase(listing: seq<Entry>, fileName: string): (r: Option<Entry>)
    ensures r.Some? ==> r.value in listing && r.value.kind == RegularFile && EqualsIgnoreCase(r.value.name, fileName)
    ensures r.None? <==> forall e :: e in listing ==> !(e.kind == RegularFile && EqualsIgnoreCase(e.name, fileName))
  {
    if listing == [] then None
    else if listing[0].kind == RegularFile && EqualsIgnoreCase(listing[0].name, fileName) then Some(listing[0])
    else FindFileNoCase(listing[1..], fileName)
  }

  /** No entry before the one `findFileNoCase` returns matches. */
  lemma {:induction false} FindFileNoCaseIsFirst(listing: seq<Entry>, fileName: string)
    ensures var r := FindFileNoCase(listing, fileName);
      r.Some? ==> exists k :: (0 <= k < |listing| && listing[k] == r.value
                               && forall j :: 0 <= j < k ==> !(listing[j].kind == RegularFile && EqualsIgnoreCase(listing[j].name, fileName)))
  {
    var r := FindFileNoCase(listing, fileName);
    if listing != [] && r.Some? {
      if listing[0].kind == RegularFile && EqualsIgnoreCase(listing[0].name, fileName) {
        assert listing[0] == r.value;
      } else {
        FindFileNoCaseIsFirst(listing[1..], fileName);
        var k :| 0 <= k < |listing[1..]| && listing[1..][k] == r.value
          && forall j :: 0 <= j < k ==> !(listing[1..][j].kind == RegularFile && EqualsIgnoreCase(listing[1..][j].name, fileName));
        assert listing[k + 1] == r.value;
      }
    }
  }

  /** `getArchivalMetaDataFile(zipFolder)`: the first xml file, or null when there is none. */
  function GetArchivalMetaDataFile(listing: seq<Entry>): (r: Option<Entry>)
    ensures r.None? <==> forall e :: e in listing ==> !HasExtension(e, "xml")
    ensures r.Some? ==> r.value in listing && HasExtension(r.value, "xml")
  {
    var files := GetXMLfiles(listing);
    if |files| > 0 then assert files[0] in files; Some(files[0]) else None
  }

  /**
   * `r` is what a loop that keeps the last entry named exactly `name` ends
   * with: the last such entry, or nothing when there is none.
   */
  predicate IsLastNamed(entries: seq<Entry>, name: string, r: Option<Entry>)
  {
    match r
    case None => forall e :: e in entries ==> e.name != name
    case Some(e) =>
      exists k :: 0 <= k < |entries| && entries[k] == e && e.name == name
        && forall j :: k < j < |entries| ==> entries[j].name != name
  }

  /** At most one result fits: the "last match wins" loops are deterministic. */
  lemma LastNamedIsUnique(entries: seq<Entry>, name: string, a: Option<Entry>, b: Option<Entry>)
    requires IsLastNamed(entries, name, a) && IsLastNamed(entries, name, b)
    ensures a == b
  {
    if a.Some? && b.Some? {
      var i :| 0 <= i < |entries| && entries[i] == a.value && a.value.name == name
        && forall j :: i < j < |entries| ==> entries[j].name != name;
      var k :| 0 <= k < |entries| && entries[k] == b.value && b.value.name == name
        && forall j :: k < j < |entries| ==> entries[j].name != name;
      assert !(i < k) && !(k < i);
    }
  }

  /** The last entry named exactly `name`, if any. */
  function LastNamedIn(entries: seq<Entry>, name: string): Option<Entry>
  {
    if entries == [] then None
    else if entries[|entries| - 1].name == name then Some(entries[|entries| - 1])
    else LastNamedIn(entries[..|entries| - 1], name)
  }

  /** `LastNamedIn` is the last match, so it is what any "last match wins" loop ends with. */
  lemma {:induction false} LastNamedInIsLast(entries: seq<Entry>, name: string)
    ensures IsLastNamed(entries, name, LastNamedIn(entries, name))
  {
    if entries != [] {
      var n := |entries| - 1;
      var init := entries[..n];
      if entries[n].name != name {
        LastNamedInIsLast(init, name);
        match LastNamedIn(init, name)
        case None =>
          forall e | e in entries
            ensures e.name != name
          {
            var j :| 0 <= j < |entries| && entries[j] == e;
            if j < n {
              assert init[j] == e;
            }
          }
        case Some(e) =>
          var k :| 0 <= k < |init| && init[k] == e && e.name == name
            && forall j :: k < j < |init| ==> init[j].name != name;
          assert entries[k] == e;
      }
    }
  }

  /**
   * `getDataFolder(zipFolder)`: the loop over the sub-directories keeps the
   * last one named exactly "data"; null when there is none.
   */
  method GetDataFolder(listing: seq<Entry>) returns (dataFolder: Option<Entry>)
    ensures dataFolder == LastNamedIn(GetFolders(listing), DATA_FOLDER_NAME)
    ensures dataFolder.None? <==> forall e :: e in listing && e.kind == Directory ==> e.name != DATA_FOLDER_NAME
    ensures dataFolder.Some? ==>
      dataFolder.value in listing && dataFolder.value.kind == Directory && dataFolder.value.name == DATA_FOLDER_NAME
  {
    var subDirs := GetFolders(listing);
    dataFolder := None;
    for i := 0 to |subDirs|
      invariant dataFolder == LastNamedIn(subDirs[..i], DATA_FOLDER_NAME)
    {
      assert subDirs[..i + 1][..i] == subDirs[..i];
      if subDirs[i].name == DATA_FOLDER_NAME {
        dataFolder := Some(subDirs[i]);
      }
    }
    assert subDirs[..|subDirs|] == subDirs;
    LastNamedInIsLast(subDirs, DATA_FOLDER_NAME);
    if dataFolder.Some? {
      var k :| 0 <= k < |subDirs| && subDirs[k] == dataFolder.value && dataFolder.value.name == DATA_FOLDER_NAME
        && forall j :: k < j < |subDirs| ==> subDirs[j].name != DATA_FOLDER_NAME;
      assert dataFolder.value in subDirs;
    }
  }
}
