/** `massageBlobPath`: how the backend normalises the URL it is given before opening
    the bucket. Only `file://` URLs are touched: `~` is expanded to the home directory,
    the path is made absolute and written with forward slashes. The operating system
    is a parameter: the current user's home directory, `filepath.Abs`,
    `filepath.Join` and the path separator. */
module BlobPath {
  import opened Wrappers
  import opened Paths

  const FilePathPrefix: string := "file://"

  datatype Host = Host(
    home: Result<string, string>,
    abs: string -> Result<string, string>,
    join: (string, string) -> string,
    separator: char)

  /** `filepath.ToSlash`. */
  function ToSlash(s: string, separator: char): (r: string)
    ensures |r| == |s|
    ensures forall i :: 0 <= i < |s| ==> r[i] == (if s[i] == separator then '/' else s[i])
  {
    seq(|s|, i requires 0 <= i < |s| => if s[i] == separator then '/' else s[i])
  }

  /** Everything after the home-directory step: make absolute, convert separators,
      add the leading slash Windows paths lack, put the scheme back. */
  function Finish(host: Host, path: string): Result<string, string>
  {
    match host.abs(path)
    case Err(e) => Err("An IO error occurred while building the absolute path: " + e)
    case Ok(absolute) =>
      var slashed := ToSlash(absolute, host.separator);
      var rooted := if host.separator != '/' && !HasPrefix(slashed, "/") then "/" + slashed else slashed;
      Ok(FilePathPrefix + rooted)
  }

  function HomeError(e: string): string {
    "Could not determine current user to resolve `file://~` path.: " + e
  }

  /** `massageBlobPath` exactly as written: every path that starts with `~` is
      expanded, and two characters are cut off whatever follows the `~`. */
  function MassageBlobPathAsWritten(path: string, host: Host): Result<string, string>
  {
    if !HasPrefix(path, FilePathPrefix) then Ok(path)
    else
      var p := path[|FilePathPrefix|..];
      if HasPrefix(p, "~") then
        match host.home
        case Err(e) => Err(HomeError(e))
        case Ok(home) => Finish(host, if p == "~" then home else host.join(home, p[2..]))
      else Finish(host, p)
  }

  /** `file://~alice/x` is read as the current user's `lice/x`: the first character of a
      named user's directory is dropped, and the name is not looked up at all. */
  lemma AsWrittenDropsCharacter(user: string, host: Host)
    requires |user| >= 1 && user[0] != '/'
    requires host.home.Ok?
    ensures MassageBlobPathAsWritten(FilePathPrefix + "~" + user, host)
            == Finish(host, host.join(host.home.value, user[1..]))
  {
    var path := FilePathPrefix + "~" + user;
    var p := path[|FilePathPrefix|..];
    assert p == "~" + user;
    assert p[..1] == "~";
    assert p != "~";
    assert p[2..] == user[1..];
  }

  /** Whether the path names the current user's home directory: `~` on its own, or `~`
      followed by a separator (`/`, or the host's own). */
  predicate NamesHome(p: string, host: Host) {
    p == "~" || HasPrefix(p, "~/") || HasPrefix(p, ['~', host.separator])
  }

  /** The expansion evidently intended: only a path that names the home directory is
      expanded; any other path goes on unchanged. */
  function ExpandHome(p: string, home: string, host: Host): string
  {
    if p == "~" then home
    else if NamesHome(p, host) then host.join(home, p[2..])
    else p
  }

  /** `massageBlobPath` with the home-directory expansion it evidently intends. */
  function MassageBlobPath(path: string, host: Host): (r: Result<string, string>)
    ensures !HasPrefix(path, FilePathPrefix) ==> r == Ok(path)
    ensures r.Ok? && HasPrefix(path, FilePathPrefix) ==> HasPrefix(r.value, FilePathPrefix)
    ensures r.Ok? && HasPrefix(path, FilePathPrefix) && host.separator != '/' ==>
      var rest := r.value[|FilePathPrefix|..];
      HasPrefix(rest, "/") && host.separator !in rest
  {
    if !HasPrefix(path, FilePathPrefix) then Ok(path)
    else
      var p := path[|FilePathPrefix|..];
      if NamesHome(p, host) then
        match host.home
        case Err(e) => Err(HomeError(e))
        case Ok(home) => FinishShape(host, ExpandHome(p, home, host)); Finish(host, ExpandHome(p, home, host))
      else
        FinishShape(host, p);
        Finish(host, p)
  }

  /** What `Finish` guarantees about the shape of its result. */
  lemma FinishShape(host: Host, path: string)
    ensures Finish(host, path).Ok? ==> HasPrefix(Finish(host, path).value, FilePathPrefix)
    ensures Finish(host, path).Ok? && host.separator != '/' ==>
      var rest := Finish(host, path).value[|FilePathPrefix|..];
      HasPrefix(rest, "/") && host.separator !in rest
  {
    if Finish(host, path).Ok? {
      var r := Finish(host, path).value;
      var rest := r[|FilePathPrefix|..];
      assert r[..|FilePathPrefix|] == FilePathPrefix;
      if host.separator != '/' {
        var slashed := ToSlash(host.abs(path).value, host.separator);
        assert host.separator !in slashed;
        assert rest == (if !HasPrefix(slashed, "/") then "/" + slashed else slashed);
      }
    }
  }

  /** Where the two versions meet: the home directory, a path under it, and any path
      not starting with `~` are handled alike... */
  lemma MassageBlobPathAgrees(path: string, host: Host)
    requires HasPrefix(path, FilePathPrefix)
    requires var p := path[|FilePathPrefix|..]; NamesHome(p, host) || !HasPrefix(p, "~")
    ensures MassageBlobPath(path, host) == MassageBlobPathAsWritten(path, host)
  {
  }

  /** ...and a named user's directory is no longer mangled: it is made absolute as
      written. */
  lemma MassageBlobPathKeepsNamedUser(user: string, host: Host)
    requires |user| >= 1 && user[0] != '/' && user[0] != host.separator
    ensures MassageBlobPath(FilePathPrefix + "~" + user, host) == Finish(host, "~" + user)
  {
    var path := FilePathPrefix + "~" + user;
    var p := path[|FilePathPrefix|..];
    assert p == "~" + user;
    assert p != "~";
    assert p[..2] != "~/" && p[..2] != ['~', host.separator] by {
      assert p[1] == user[0];
    }
  }

  /** `~`, `~/x` and, with the host's separator, `~\x` name the home directory and a
      path under it. */
  lemma MassageBlobPathExpandsHome(rest: string, host: Host)
    requires host.home.Ok?
    ensures MassageBlobPath(FilePathPrefix + "~", host) == Finish(host, host.home.value)
    ensures MassageBlobPath(FilePathPrefix + "~/" + rest, host) == Finish(host, host.join(host.home.value, rest))
    ensures MassageBlobPath(FilePathPrefix + ['~', host.separator] + rest, host)
            == Finish(host, host.join(host.home.value, rest))
  {
    var p3 := (FilePathPrefix + ['~', host.separator] + rest)[|FilePathPrefix|..];
    assert p3 == ['~', host.separator] + rest;
    assert p3[..2] == ['~', host.separator];
    assert p3[2..] == rest;
    var p1 := (FilePathPrefix + "~")[|FilePathPrefix|..];
    assert p1 == "~";
    var p2 := (FilePathPrefix + "~/" + rest)[|FilePathPrefix|..];
    assert p2 == "~/" + rest;
    assert p2[..2] == "~/";
    assert p2[2..] == rest;
  }
}
