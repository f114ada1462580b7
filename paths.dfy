/**
 * Conversion between absolute paths and storage-relative file names
 * (`get_file_resource_filename` and `get_filepath` of the Tantalus client).
 */
module Paths {
  import opened Wrappers
  import opened Catalog

  predicate StartsWith(s: string, prefix: string) {
    |prefix| <= |s| && s[..|prefix|] == prefix
  }

  predicate EndsWith(s: string, suffix: string) {
    |suffix| <= |s| && s[|s| - |suffix|..] == suffix
  }

  /** True when `s` holds ".." anywhere (Python's `'..' in s`). */
  predicate ContainsDotDot(s: string) {
    exists i :: 0 <= i < |s| - 1 && s[i] == '.' && s[i + 1] == '.'
  }

  /** A string made only of '/' characters. */
  predicate AllSlashes(s: string) {
    forall i :: 0 <= i < |s| ==> s[i] == '/'
  }

  /** Python's `s.lstrip('/')`: every leading '/' removed. */
  function LStripSlashes(s: string): (r: string)
    ensures r == [] || r[0] != '/'
    ensures |r| <= |s| && s == s[..|s| - |r|] + r
    ensures AllSlashes(s[..|s| - |r|])
    decreases |s|
  {
    if |s| > 0 && s[0] == '/' then
      var rest := LStripSlashes(s[1..]);
      assert s[..|s| - |rest|] == [s[0]] + s[1..][..|s| - 1 - |rest|];
      rest
    else
      s
  }

  /**
   * `get_file_resource_filename`: the text of `filepath` after the storage
   * prefix, without leading slashes; `NotInStorage` when the path is not under
   * the prefix.
   */
  function FileResourceFilename(prefix: string, filepath: string): (r: Result<string, ApiError>)
    ensures r.Err? <==> !StartsWith(filepath, prefix)
    ensures r.Err? ==> r.error == NotInStorage
    ensures r.Ok? ==> r.value == [] || r.value[0] != '/'
    ensures r.Ok? ==> exists slashes :: AllSlashes(slashes) && filepath == prefix + slashes + r.value
  {
    if !StartsWith(filepath, prefix) then
      Err(NotInStorage)
    else
      var rest := filepath[|prefix|..];
      var name := LStripSlashes(rest);
      assert filepath == prefix + rest[..|rest| - |name|] + name;
      Ok(name)
  }

  /** Python's `os.path.join(a, b)` on POSIX, for two components. */
  function Join(a: string, b: string): string {
    if StartsWith(b, "/") then b
    else if a == [] || EndsWith(a, "/") then a + b
    else a + "/" + b
  }

  /**
   * `get_filepath`: the storage prefix joined with a relative file name;
   * names that start with '/' or contain ".." are refused.
   */
  function Filepath(prefix: string, filename: string): (r: Result<string, ApiError>)
    ensures r.Err? <==> StartsWith(filename, "/") || ContainsDotDot(filename)
    ensures r.Err? ==> r.error == NotRelative
    ensures r.Ok? ==> StartsWith(r.value, prefix) && EndsWith(r.value, filename)
  {
    if StartsWith(filename, "/") || ContainsDotDot(filename) then
      Err(NotRelative)
    else
      Ok(Join(prefix, filename))
  }

  /** Stripping slashes from a run of slashes followed by a name that does not start with one gives the name. */
  lemma {:induction false} StripSlashesBeforeName(slashes: string, name: string)
    requires AllSlashes(slashes)
    requires name == [] || name[0] != '/'
    ensures LStripSlashes(slashes + name) == name
    decreases |slashes|
  {
    if |slashes| > 0 {
      assert (slashes + name)[1..] == slashes[1..] + name;
      StripSlashesBeforeName(slashes[1..], name);
    } else {
      assert slashes + name == name;
    }
  }

  /** Every accepted file name survives the trip to an absolute path and back. */
  lemma FilepathRoundTrip(prefix: string, filename: string)
    requires Filepath(prefix, filename).Ok?
    ensures FileResourceFilename(prefix, Filepath(prefix, filename).value) == Ok(filename)
  {
    var path := Filepath(prefix, filename).value;
    assert filename == [] || filename[0] != '/' by {
      if filename != [] {
        assert filename[..1] == [filename[0]];
      }
    }
    var slashes := if prefix == [] || EndsWith(prefix, "/") then "" else "/";
    assert path == prefix + slashes + filename;
    assert path[..|prefix|] == prefix;
    assert path[|prefix|..] == slashes + filename;
    StripSlashesBeforeName(slashes, filename);
  }
}
