/** The local-path test and path expansion that the reply dispatcher
    (extensions/nexus/src/reply-dispatcher.ts) and the outbound media sender
    (extensions/nexus/src/send.ts) each carry a copy of.

    `new URL(s)` is not modelled: its outcome is the `protocol` parameter,
    the parsed URL's protocol, or `None` when parsing throws. */
module Paths {
  import opened Wrappers
  import opened Text

  /** `/^[a-zA-Z]:/`: a drive letter. */
  predicate DriveLetter(s: string) {
    |s| >= 2 && IsAsciiLetter(s[0]) && s[1] == ':'
  }

  /** `isLocalPath`: an absolute path, a home-relative path or a drive path
      is local without parsing; otherwise a string that is not a URL is
      taken as local, and a URL is local only with the `file:` protocol. */
  predicate IsLocalPath(s: string, protocol: Option<string>) {
    if StartsWith(s, "/") || StartsWith(s, "~") || DriveLetter(s) then true
    else protocol.None? || protocol.value == "file:"
  }

  /** A local path wins before URL parsing is consulted; a URL of another
      protocol than `file:` is remote. */
  lemma LocalPathCases(s: string, protocol: Option<string>, rest: string)
    ensures StartsWith(s, "/") || StartsWith(s, "~") || DriveLetter(s) ==> IsLocalPath(s, protocol)
    ensures !IsLocalPath("https://" + rest, Some("https:"))
    ensures IsLocalPath("file://" + rest, Some("file:"))
  {
    var u := "https://" + rest;
    assert u[0] == 'h' && u[1] == 't';
    assert !StartsWith(u, "/") && !StartsWith(u, "~");
  }

  /** The file a local media reference names: `~` replaced by the home
      directory when the reference starts with it, else the first `file://`
      removed. */
  function LocalFilePath(url: string, home: string): (r: string)
    ensures StartsWith(url, "~") ==> r == home + url[1..]
    ensures !StartsWith(url, "~") && IndexOf(url, "file://") < 0 ==> r == url
  {
    if StartsWith(url, "~") then
      assert IndexOf(url, "~") == 0 by { assert OccursAt(url, "~", 0); }
      ReplaceFirst(url, "~", home)
    else ReplaceFirst(url, "file://", "")
  }

  /** A `file://` URL names the path after the scheme. */
  lemma FileUrlPath(path: string, home: string)
    requires IndexOf(path, "file://") < 0
    ensures LocalFilePath("file://" + path, home) == path
  {
    var url := "file://" + path;
    assert !StartsWith(url, "~") by { assert url[0] == 'f'; }
    assert OccursAt(url, "file://", 0) by { assert url[..7] == "file://"; }
    assert IndexOf(url, "file://") == 0;
    assert url[7..] == path;
  }
}
