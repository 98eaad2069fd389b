/** Media handling on the bot side (extensions/nexus/src/media.ts): MIME
    sniffing by magic bytes, the extension table, `data:` URL splitting and
    building, the decisions of saving an inbound image, and the media
    fields of the inbound context.

    Base64 itself is not modelled: encoding is the `encode` parameter and
    decoding the `decode` parameter. File reads and writes, the host's media
    store, `fetch`, the clock and `Math.random` are outcomes passed in. */
module Media {
  import opened Wrappers
  import opened Text

  type Bytes = seq<bv8>

  predicate IsPng(b: Bytes) { |b| >= 4 && b[0] == 0x89 && b[1] == 0x50 && b[2] == 0x4e && b[3] == 0x47 }
  predicate IsJpeg(b: Bytes) { |b| >= 3 && b[0] == 0xff && b[1] == 0xd8 && b[2] == 0xff }
  predicate IsGif(b: Bytes) { |b| >= 4 && b[0] == 0x47 && b[1] == 0x49 && b[2] == 0x46 && b[3] == 0x38 }
  predicate IsRiff(b: Bytes) { |b| >= 4 && b[0] == 0x52 && b[1] == 0x49 && b[2] == 0x46 && b[3] == 0x46 }
  predicate HasWebpTag(b: Bytes) { |b| >= 12 && b[8] == 0x57 && b[9] == 0x45 && b[10] == 0x42 && b[11] == 0x50 }
  predicate IsBmp(b: Bytes) { |b| >= 2 && b[0] == 0x42 && b[1] == 0x4d }

  const KnownImageTypes: set<string> := {"image/png", "image/jpeg", "image/gif", "image/webp", "image/bmp"}

  /** `detectMimeFromBuffer`: nothing under four bytes; otherwise the first
      signature that matches, in the order PNG, JPEG, GIF, WebP (a RIFF
      header with the `WEBP` tag at offset 8), BMP. */
  function DetectMime(b: Bytes): (r: Option<string>)
    ensures |b| < 4 ==> r.None?
    ensures r.Some? ==> r.value in KnownImageTypes
    ensures r == Some("image/png") <==> |b| >= 4 && IsPng(b)
    ensures r.None? <==> |b| < 4 || (!IsPng(b) && !IsJpeg(b) && !IsGif(b) && !(IsRiff(b) && HasWebpTag(b)) && !IsBmp(b))
  {
    if |b| < 4 then None
    else if IsPng(b) then Some("image/png")
    else if IsJpeg(b) then Some("image/jpeg")
    else if IsGif(b) then Some("image/gif")
    else if IsRiff(b) && HasWebpTag(b) then Some("image/webp")
    else if IsBmp(b) then Some("image/bmp")
    else None
  }

  /** Each signature, followed by anything long enough, is recognised as its
      type; a RIFF container that is not WebP is not recognised. */
  lemma DetectSignatures(rest: Bytes, size: Bytes, tag: Bytes)
    requires |size| == 4 && |tag| == 4
    ensures DetectMime([0x89, 0x50, 0x4e, 0x47] + rest) == Some("image/png")
    ensures |rest| >= 1 ==> DetectMime([0xff, 0xd8, 0xff] + rest) == Some("image/jpeg")
    ensures DetectMime([0x47, 0x49, 0x46, 0x38] + rest) == Some("image/gif")
    ensures DetectMime([0x52, 0x49, 0x46, 0x46] + size + [0x57, 0x45, 0x42, 0x50] + rest) == Some("image/webp")
    ensures tag != [0x57, 0x45, 0x42, 0x50] ==> DetectMime([0x52, 0x49, 0x46, 0x46] + size + tag + rest) == None
    ensures |rest| >= 2 && rest[0] != 0xff && rest[0] != 0x4e && rest[0] != 0x46 ==>
      DetectMime([0x42, 0x4d] + rest) == Some("image/bmp")
  {
    var riff: Bytes := [0x52, 0x49, 0x46, 0x46] + size + tag + rest;
    assert [riff[8], riff[9], riff[10], riff[11]] == tag;
  }

  /** `getExtensionFromMime`'s table. */
  const MimeExtensions: map<string, string> := map[
    "image/jpeg" := ".jpg", "image/jpg" := ".jpg", "image/png" := ".png", "image/gif" := ".gif",
    "image/webp" := ".webp", "image/bmp" := ".bmp", "image/svg+xml" := ".svg", "image/tiff" := ".tiff",
    "image/ico" := ".ico", "image/x-icon" := ".ico"]

  /** `getExtensionFromMime`: the table's extension, else ".bin". */
  function ExtensionOf(mime: string): (r: string)
    ensures mime in MimeExtensions ==> r == MimeExtensions[mime]
    ensures mime !in MimeExtensions ==> r == ".bin"
  {
    if mime in MimeExtensions then MimeExtensions[mime] else ".bin"
  }

  /** Every type the sniffer recognises has its own extension, and both
      JPEG spellings and both icon spellings share one. */
  lemma DetectedTypesHaveExtensions(b: Bytes)
    ensures DetectMime(b).Some? ==> ExtensionOf(DetectMime(b).value) != ".bin"
    ensures ExtensionOf("image/jpeg") == ExtensionOf("image/jpg") == ".jpg"
    ensures ExtensionOf("image/ico") == ExtensionOf("image/x-icon") == ".ico"
  {
  }

  /** `data:<mime>;base64,<payload>`. */
  function DataUrl(mime: string, payload: string): string {
    "data:" + mime + ";base64," + payload
  }

  predicate NoSemicolon(s: string) { forall i :: 0 <= i < |s| ==> s[i] != ';' }
  predicate SingleLine(s: string) { forall i :: 0 <= i < |s| ==> !IsLineTerminator(s[i]) }

  /** What `parseBase64Image` decodes, and the MIME type it read. */
  datatype ParsedImage = ParsedImage(payload: string, mimeType: Option<string>)

  /** `/^data:([^;]+);base64,(.+)$/`: the type runs to the first `;`, which
      must open `;base64,`; the payload is the non-empty rest, on one line
      since `.` does not match a line terminator. */
  function MatchDataUrl(s: string): (r: Option<(string, string)>)
    ensures r.Some? ==>
      && r.value.0 != [] && NoSemicolon(r.value.0)
      && r.value.1 != [] && SingleLine(r.value.1)
      && s == DataUrl(r.value.0, r.value.1)
  {
    if StartsWith(s, "data:") then
      var rest := s[5..];
      var j := IndexOf(rest, ";");
      if j > 0 && StartsWith(rest[j..], ";base64,") && |rest| > j + 8 && SingleLine(rest[j + 8..]) then
        BeforeFirstSemicolon(rest, j);
        DataUrlParts(s, rest, j);
        Some((rest[..j], rest[j + 8..]))
      else None
    else None
  }

  /** Nothing before the first `;` is a `;`. */
  lemma BeforeFirstSemicolon(rest: string, j: int)
    requires 0 <= j <= |rest| && IndexOf(rest, ";") == j
    ensures NoSemicolon(rest[..j])
  {
    forall i | 0 <= i < j ensures rest[..j][i] != ';' {
      assert !OccursAt(rest, ";", i);
      assert rest[i..i + 1] == [rest[i]];
    }
  }

  /** A string `data:` + rest, where `;base64,` sits at `j` in rest, is the
      data URL of the parts around it. */
  lemma DataUrlParts(s: string, rest: string, j: nat)
    requires StartsWith(s, "data:") && rest == s[5..]
    requires j + 8 <= |rest| && StartsWith(rest[j..], ";base64,")
    ensures s == DataUrl(rest[..j], rest[j + 8..])
  {
    assert s == "data:" + rest;
    assert rest[j..][..8] == ";base64,";
    assert rest[j..] == rest[j..j + 8] + rest[j + 8..];
    assert rest == rest[..j] + ";base64," + rest[j + 8..];
  }

  /** `parseBase64Image`: a matching data URL gives its payload and type;
      any other string is decoded whole, with no type. */
  function ParseBase64Image(s: string): (r: ParsedImage)
    ensures r.mimeType.Some? ==> r.mimeType.value != "" && s == DataUrl(r.mimeType.value, r.payload)
    ensures r.mimeType.None? ==> r.payload == s
  {
    match MatchDataUrl(s)
    case Some((mime, payload)) => ParsedImage(payload, Some(mime))
    case None => ParsedImage(s, None)
  }

  /** A data URL built from a type without `;` and a non-empty single-line
      payload is split back into exactly that type and payload. */
  lemma ParseDataUrl(mime: string, payload: string)
    requires mime != [] && NoSemicolon(mime)
    requires payload != [] && SingleLine(payload)
    ensures ParseBase64Image(DataUrl(mime, payload)) == ParsedImage(payload, Some(mime))
  {
    var s := DataUrl(mime, payload);
    var tail := ";base64," + payload;
    var rest := mime + tail;
    var j := |mime|;
    assert s == "data:" + rest;
    assert StartsWith(s, "data:") && s[5..] == rest;
    FirstSemicolon(mime, tail);
    assert rest[j..] == tail && StartsWith(tail, ";base64,");
    assert rest[..j] == mime && rest[j + 8..] == payload;
    assert MatchDataUrl(s) == Some((mime, payload));
  }

  /** The first `;` after a run free of `;` is the one that ends the run. */
  lemma FirstSemicolon(run: string, tail: string)
    requires NoSemicolon(run) && |tail| > 0 && tail[0] == ';'
    ensures IndexOf(run + tail, ";") == |run|
  {
    var s := run + tail;
    assert OccursAt(s, ";", |run|) by { assert s[|run|..|run| + 1] == [tail[0]]; }
    forall k | 0 <= k < |run| ensures !OccursAt(s, ";", k) {
      assert s[k..k + 1] == [run[k]];
    }
  }

  /** `data:<type>;base64,<base64>` for a buffer, typed by its magic bytes
      and binary when they are unknown. */
  function EncodeDataUrl(bytes: Bytes, encode: Bytes -> string): (r: string)
    ensures StartsWith(r, "data:")
  {
    DataUrl(DetectMime(bytes).GetOr("application/octet-stream"), encode(bytes))
  }

  /** `fileToBase64`: the data URL of the file's contents, or nothing when
      the read fails. */
  function FileToBase64(read: Option<Bytes>, encode: Bytes -> string): (r: Option<string>)
    ensures r.None? <==> read.None?
    ensures r.Some? ==> StartsWith(r.value, "data:")
  {
    match read
    case Some(bytes) => Some(EncodeDataUrl(bytes, encode))
    case None => None
  }

  /** What `fileToBase64` and the media senders write `parseBase64Image`
      reads back: the encoded buffer, under the type the sniffer gave it. */
  lemma EncodeRoundTrip(bytes: Bytes, encode: Bytes -> string)
    requires encode(bytes) != [] && SingleLine(encode(bytes))
    ensures ParseBase64Image(EncodeDataUrl(bytes, encode)) ==
      ParsedImage(encode(bytes), Some(DetectMime(bytes).GetOr("application/octet-stream")))
  {
    var mime := DetectMime(bytes).GetOr("application/octet-stream");
    assert NoSemicolon(mime) by {
      assert mime in KnownImageTypes + {"application/octet-stream"};
    }
    ParseDataUrl(mime, encode(bytes));
  }

  /** The type a downloaded body is sent under: the sniffed type, else the
      response's non-empty `content-type`, else binary. */
  function DownloadedMime(body: Bytes, contentType: Option<string>): (r: string)
    ensures r != ""
    ensures DetectMime(body).Some? ==> r == DetectMime(body).value
    ensures DetectMime(body).None? && contentType.Some? && contentType.value != "" ==> r == contentType.value
  {
    if DetectMime(body).Some? then DetectMime(body).value
    else if contentType.Some? && contentType.value != "" then contentType.value
    else "application/octet-stream"
  }

  /** What a `fetch` of a media URL gave. */
  datatype Fetched = FetchThrew | Response(ok: bool, status: int, body: Bytes, contentType: Option<string>)

  /** The data URL of a downloaded body, when the response was OK. */
  function DownloadedImage(f: Fetched, encode: Bytes -> string): (r: Option<string>)
    ensures r.Some? <==> f.Response? && f.ok
    ensures r.Some? ==> r.value == DataUrl(DownloadedMime(f.body, f.contentType), encode(f.body))
  {
    if f.Response? && f.ok then Some(DataUrl(DownloadedMime(f.body, f.contentType), encode(f.body))) else None
  }

  /** The outside world a media reference is resolved in: the home
      directory, what `new URL` makes of a string (its protocol, nothing
      when it throws), which files exist and what reading one gives, what
      fetching a URL gives, and the base64 encoder. */
  datatype MediaHost = MediaHost(
    home: string, protocolOf: string -> Option<string>, fileExists: string -> bool,
    readFile: string -> Option<Bytes>, fetch: string -> Fetched, encode: Bytes -> string)

  /** The media info an inbound image is saved as. */
  datatype MediaInfo = MediaInfo(path: string, contentType: Option<string>, placeholder: string)

  const DefaultMaxBytes: nat := 30 * 1024 * 1024

  /** The outside world an inbound image is saved in: the decoder, the
      clock and random suffix of the temporary name, what the host's media
      store returns (nothing when it throws), the temporary directory and
      whether writing there succeeds. */
  datatype SaveHost = SaveHost(
    decode: string -> Bytes, now: int, random: string,
    stored: Option<(string, string)>, tmpDir: string, writeOk: bool)

  /** The type an inbound image is saved under: the data URL's type, else
      the sniffed type, else PNG. */
  function SavedMime(parsed: ParsedImage, bytes: Bytes): (r: string)
    ensures r != ""
    ensures parsed.mimeType.Some? && parsed.mimeType.value != "" ==> r == parsed.mimeType.value
    ensures parsed.mimeType.None? ==> r == DetectMime(bytes).GetOr("image/png")
  {
    if parsed.mimeType.Some? && parsed.mimeType.value != "" then parsed.mimeType.value
    else DetectMime(bytes).GetOr("image/png")
  }

  /** The temporary file name: `nexus_<now>_<random><extension>`. */
  function TempName(now: int, random: string, mime: string): (r: string)
    ensures StartsWith(r, "nexus_")
    ensures |r| >= |ExtensionOf(mime)| && r[|r| - |ExtensionOf(mime)|..] == ExtensionOf(mime)
  {
    var stem := "nexus_" + IntToString(now) + "_" + random;
    assert (stem + ExtensionOf(mime))[..6] == "nexus_";
    assert (stem + ExtensionOf(mime))[|stem|..] == ExtensionOf(mime);
    stem + ExtensionOf(mime)
  }

  /** `saveBase64ImageToFile`: nothing when the decoded image is larger
      than `maxBytes`; otherwise what the host's media store returns or,
      when it throws, a file in the temporary directory (nothing when that
      write fails); the placeholder is always `<media:image>`. */
  function SaveBase64ImageToFile(s: string, maxBytes: int, host: SaveHost): (r: Option<MediaInfo>)
    ensures |host.decode(ParseBase64Image(s).payload)| > maxBytes ==> r.None?
    ensures r.Some? ==> r.value.placeholder == "<media:image>"
    ensures r.Some? && host.stored.None? ==>
      r.value.contentType == Some(SavedMime(ParseBase64Image(s), host.decode(ParseBase64Image(s).payload)))
    ensures |host.decode(ParseBase64Image(s).payload)| <= maxBytes ==> (r.None? <==> host.stored.None? && !host.writeOk)
    ensures |host.decode(ParseBase64Image(s).payload)| <= maxBytes && host.stored.Some? ==>
      r == Some(MediaInfo(host.stored.value.0, Some(host.stored.value.1), "<media:image>"))
    ensures |host.decode(ParseBase64Image(s).payload)| <= maxBytes && host.stored.None? && host.writeOk ==>
      var mime := SavedMime(ParseBase64Image(s), host.decode(ParseBase64Image(s).payload));
      r.Some? && r.value.path == host.tmpDir + "/" + TempName(host.now, host.random, mime)
  {
    var parsed := ParseBase64Image(s);
    var bytes := host.decode(parsed.payload);
    if |bytes| > maxBytes then None
    else
      var mime := SavedMime(parsed, bytes);
      match host.stored
      case Some((path, contentType)) => Some(MediaInfo(path, Some(contentType), "<media:image>"))
      case None =>
        if host.writeOk then
          Some(MediaInfo(host.tmpDir + "/" + TempName(host.now, host.random, mime), Some(mime), "<media:image>"))
        else None
  }

  /** A buffer sent as a data URL and saved where the media store is not
      available lands in the temporary directory under its sniffed type, or
      as binary when the sniffer does not know it: never under the PNG
      default, since the data URL always names a type. */
  lemma SaveEncoded(bytes: Bytes, encode: Bytes -> string, host: SaveHost)
    requires encode(bytes) != [] && SingleLine(encode(bytes))
    requires host.decode(encode(bytes)) == bytes
    requires |bytes| <= DefaultMaxBytes && host.stored.None? && host.writeOk
    ensures SaveBase64ImageToFile(EncodeDataUrl(bytes, encode), DefaultMaxBytes, host).Some?
    ensures SaveBase64ImageToFile(EncodeDataUrl(bytes, encode), DefaultMaxBytes, host).value.contentType ==
      Some(DetectMime(bytes).GetOr("application/octet-stream"))
  {
    EncodeRoundTrip(bytes, encode);
  }

  /** The media fields of the inbound context. */
  datatype MediaPayload = MediaPayload(
    mediaPath: Option<string>, mediaType: Option<string>, mediaUrl: Option<string>,
    mediaPaths: Option<seq<string>>, mediaUrls: Option<seq<string>>, mediaTypes: Option<seq<string>>)

  function PathsOf(list: seq<MediaInfo>): (r: seq<string>)
    ensures |r| == |list|
    ensures forall i :: 0 <= i < |list| ==> r[i] == list[i].path
  {
    seq(|list|, i requires 0 <= i < |list| => list[i].path)
  }

  /** The content types that are present and not empty, in order. */
  function TruthyTypes(list: seq<MediaInfo>): (r: seq<string>)
    ensures |r| <= |list|
    ensures forall t :: t in r ==> t != ""
    ensures forall t :: t in r <==> exists i :: 0 <= i < |list| && list[i].contentType == Some(t) && t != ""
  {
    if list == [] then []
    else
      var rest := TruthyTypes(list[1..]);
      assert forall t :: (exists i :: 0 <= i < |list[1..]| && list[1..][i].contentType == Some(t) && t != "") <==>
                         (exists i :: 1 <= i < |list| && list[i].contentType == Some(t) && t != "") by {
        forall t ensures (exists i :: 0 <= i < |list[1..]| && list[1..][i].contentType == Some(t) && t != "") ==>
                         (exists i :: 1 <= i < |list| && list[i].contentType == Some(t) && t != "") {
          if i :| 0 <= i < |list[1..]| && list[1..][i].contentType == Some(t) && t != "" {
            assert list[i + 1] == list[1..][i];
          }
        }
        forall t ensures (exists i :: 1 <= i < |list| && list[i].contentType == Some(t) && t != "") ==>
                         (exists i :: 0 <= i < |list[1..]| && list[1..][i].contentType == Some(t) && t != "") {
          if i :| 1 <= i < |list| && list[i].contentType == Some(t) && t != "" {
            assert list[1..][i - 1] == list[i];
          }
        }
      }
      match list[0].contentType
      case Some(t) => if t != "" then [t] + rest else rest
      case None => rest
  }

  /** The types are filtered entry by entry: the types of two lists one
      after the other are their types one after the other, so order and
      repeated types are kept, and one entry gives its type when it is
      present and not empty. */
  lemma {:induction false} TruthyTypesAppend(a: seq<MediaInfo>, b: seq<MediaInfo>, m: MediaInfo)
    ensures TruthyTypes(a + b) == TruthyTypes(a) + TruthyTypes(b)
    ensures TruthyTypes([m]) == if m.contentType.Some? && m.contentType.value != "" then [m.contentType.value] else []
    decreases |a|
  {
    assert [m][1..] == [];
    if a != [] {
      assert (a + b)[0] == a[0];
      assert (a + b)[1..] == a[1..] + b;
      TruthyTypesAppend(a[1..], b, m);
    } else {
      assert a + b == b;
    }
  }

  /** `buildGatewayMediaPayload`: path, type and URL of the first entry;
      every path, as both paths and URLs, unless there are none; the present
      non-empty types, unless there are none. */
  function BuildMediaPayload(list: seq<MediaInfo>): (r: MediaPayload)
    ensures list == [] ==> r == MediaPayload(None, None, None, None, None, None)
    ensures list != [] ==>
      && r.mediaPath == Some(list[0].path) && r.mediaUrl == r.mediaPath
      && r.mediaType == list[0].contentType
      && r.mediaPaths == Some(PathsOf(list)) && r.mediaUrls == r.mediaPaths
    ensures r.mediaTypes.Some? <==> exists i :: 0 <= i < |list| && list[i].contentType.Some? && list[i].contentType.value != ""
    ensures r.mediaTypes.Some? ==> r.mediaTypes.value == TruthyTypes(list)
  {
    var paths := PathsOf(list);
    var types := TruthyTypes(list);
    assert types == [] <==> !exists i :: 0 <= i < |list| && list[i].contentType.Some? && list[i].contentType.value != "" by {
      if i :| 0 <= i < |list| && list[i].contentType.Some? && list[i].contentType.value != "" {
        assert list[i].contentType.value in types;
      }
      if types != [] {
        assert types[0] in types;
      }
    }
    MediaPayload(
      if list == [] then None else Some(list[0].path),
      if list == [] then None else list[0].contentType,
      if list == [] then None else Some(list[0].path),
      if |paths| > 0 then Some(paths) else None,
      if |paths| > 0 then Some(paths) else None,
      if |types| > 0 then Some(types) else None)
  }
}
