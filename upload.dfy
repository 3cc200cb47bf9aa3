// The image upload handlers of app/api/media/upload/route.ts and
// app/api/upload/route.ts, which are the same code. The form data, the
// content sniffing of the file type, the clock and the blob store are
// parameters: the detected type (or a failure of detection), the ISO time
// stamp, the millisecond time and the stored blob's url (or a failure of
// the store).

module Upload {
  import opened Opt
  import opened Strings
  import Auth

  /** The largest accepted upload: 4 MiB. */
  const MaxBytes: nat := 4 * 1024 * 1024

  const AllowedMimes: seq<string> := ["image/jpeg", "image/png", "image/webp", "image/gif"]

  const Unauthorised := "Authentication required"
  const NoFile := "No file uploaded"
  const TooLarge := "File too large (max 4MB)"
  const BadType := "Invalid file type. Only JPEG, PNG, WebP, and GIF images are allowed"
  const StoreFailed := "Failed to upload file"

  datatype FileType = FileType(mime: string, ext: string)

  /** The outcome of sniffing the file's content. */
  datatype Detection = Detected(fileType: FileType) | Unrecognised | DetectionFailed

  datatype UploadedFile = UploadedFile(name: string, size: nat)

  datatype UploadResponse =
    | Failure(status: int, error: string)
    | Uploaded(path: string, name: string, contentType: string, url: string, size: nat)

  /** `mplx/<user id or 'anonymous'>/<YYYY-MM-DD>/image-<ms>.<ext>`, the day
      being the part of the ISO time stamp before its 'T'. */
  function BlobPath(userId: Option<string>, isoNow: string, nowMs: nat, ext: string): (r: string)
    ensures StartsWith(r, Root + "/" + PathUser(userId) + "/")
    ensures EndsWith(r, "." + ext)
  {
    Root + "/" + (PathUser(userId) + "/" + (Day(isoNow) + "/" + FileName(nowMs, ext)))
  }

  /** The user segment of the path: the user id, or 'anonymous' when there
      is none or it is empty. */
  function PathUser(userId: Option<string>): (r: string)
    ensures r != ""
    ensures userId.Some? && userId.value != "" ==> r == userId.value
  {
    if userId.Some? && userId.value != "" then userId.value else "anonymous"
  }

  /** With a user id, a time stamp and an extension free of '/', the path has
      exactly four segments: 'mplx', the user, the day (the time stamp up to
      its first 'T') and the file name 'image-<ms>.<ext>'. */
  lemma BlobPathSegments(userId: Option<string>, isoNow: string, nowMs: nat, ext: string)
    requires Lacks(PathUser(userId), '/') && Lacks(isoNow, '/') && Lacks(ext, '/')
    ensures Split(BlobPath(userId, isoNow, nowMs, ext), '/')
            == [Root, PathUser(userId), Day(isoNow), FileName(nowMs, ext)]
  {
    PathSegments(PathUser(userId), Day(isoNow), FileName(nowMs, ext));
  }

  /** The three segments under the root, each free of '/', split back out. */
  lemma PathSegments(user: string, day: string, file: string)
    requires Lacks(user, '/') && Lacks(day, '/') && Lacks(file, '/')
    ensures Split(Root + "/" + (user + "/" + (day + "/" + file)), '/') == [Root, user, day, file]
  {
    assert Lacks(Root, '/');
    SplitFour(Root, user, day, file);
  }

  /** The date part of an ISO time stamp: the text before its first 'T'. */
  function Day(isoNow: string): (r: string)
    ensures StartsWith(isoNow, r) && Lacks(r, 'T')
    ensures Lacks(isoNow, '/') ==> Lacks(r, '/')
  {
    SplitFirst(isoNow, 'T');
    SplitPartsLackSep(isoNow, 'T');
    var r := Split(isoNow, 'T')[0];
    assert forall i | 0 <= i < |r| :: r[i] == isoNow[i];
    r
  }

  const Root: string := "mplx"

  /** The last segment, 'image-<ms>.<ext>'; it has no '/' when `ext` has none. */
  function FileName(nowMs: nat, ext: string): (r: string)
    ensures Lacks(ext, '/') ==> Lacks(r, '/')
    ensures EndsWith(r, "." + ext)
  {
    var digits := NatToString(nowMs);
    var r := "image-" + digits + "." + ext;
    assert forall i | 6 <= i < 6 + |digits| :: r[i] == digits[i - 6];
    r
  }

  /** The first segment of `a + '/' + rest` is `a` when `a` has no '/'. */
  lemma SplitCons(a: string, rest: string)
    requires Lacks(a, '/')
    ensures Split(a + "/" + rest, '/') == [a] + Split(rest, '/')
  {
    var s := a + "/" + rest;
    IndexOfAfter(a, '/', rest);
    SplitAtIndex(s, '/');
    assert s[..|a|] == a;
    assert s[|a| + 1..] == rest;
  }
  /** Segments free of '/' joined with '/' split back into themselves. */
  lemma SplitTwo(c: string, d: string)
    requires Lacks(c, '/') && Lacks(d, '/')
    ensures Split(c + "/" + d, '/') == [c, d]
  {
    SplitOne(d);
    SplitCons(c, d);
  }
  lemma SplitOne(d: string)
    requires Lacks(d, '/')
    ensures Split(d, '/') == [d]
  {}
  lemma SplitThree(b: string, c: string, d: string)
    requires Lacks(b, '/') && Lacks(c, '/') && Lacks(d, '/')
    ensures Split(b + "/" + (c + "/" + d), '/') == [b, c, d]
  {
    SplitTwo(c, d);
    SplitCons(b, c + "/" + d);
  }
  lemma SplitFour(a: string, b: string, c: string, d: string)
    requires Lacks(a, '/') && Lacks(b, '/') && Lacks(c, '/') && Lacks(d, '/')
    ensures Split(a + "/" + (b + "/" + (c + "/" + d)), '/') == [a, b, c, d]
  {
    var tail := b + "/" + (c + "/" + d);
    SplitThree(b, c, d);
    assert Split(tail, '/') == [b, c, d];
    SplitCons(a, tail);
    assert Split(a + "/" + tail, '/') == [a] + [b, c, d];
  }

  /** Two uploads at different milliseconds get different paths, whatever
      else they share. */
  lemma BlobPathDistinct(userId: Option<string>, isoNow: string, m: nat, n: nat, ext: string)
    requires m != n
    ensures BlobPath(userId, isoNow, m, ext) != BlobPath(userId, isoNow, n, ext)
  {
    var pre := Root + "/" + PathUser(userId) + "/" + Day(isoNow) + "/";
    var a, b := BlobPath(userId, isoNow, m, ext), BlobPath(userId, isoNow, n, ext);
    BlobPathShape(userId, isoNow, m, ext);
    BlobPathShape(userId, isoNow, n, ext);
    FileNameDistinct(m, n, ext);
    assert a[|pre|..] == FileName(m, ext);
    assert b[|pre|..] == FileName(n, ext);
  }

  /** The path is the directory of the user and the day, then the file name. */
  lemma BlobPathShape(userId: Option<string>, isoNow: string, n: nat, ext: string)
    ensures BlobPath(userId, isoNow, n, ext)
            == Root + "/" + PathUser(userId) + "/" + Day(isoNow) + "/" + FileName(n, ext)
  {
    var u, d, f := PathUser(userId), Day(isoNow), FileName(n, ext);
    assert Root + "/" + (u + "/" + (d + "/" + f)) == Root + "/" + u + "/" + d + "/" + f;
  }

  lemma FileNameDistinct(m: nat, n: nat, ext: string)
    requires m != n
    ensures FileName(m, ext) != FileName(n, ext)
  {
    var x, y := FileName(m, ext), FileName(n, ext);
    var dm, dn := NatToString(m), NatToString(n);
    NatToStringInjective(m, n);
    assert x == "image-" + dm + ("." + ext);
    assert y == "image-" + dn + ("." + ext);
    assert x[6..|x| - |"." + ext|] == dm;
    assert y[6..|y| - |"." + ext|] == dn;
  }

  /** `POST`: 401 without a bearer token, 400 without a file, 413 above
      4 MiB, 415 unless the sniffed type is JPEG, PNG, WebP or GIF, 500 when
      sniffing or storing fails; otherwise the stored file's details. */
  function Post(authorization: Option<string>, file: Option<UploadedFile>, detection: Detection,
                isoNow: string, nowMs: nat, blobUrl: Option<string>): (r: UploadResponse)
    ensures !Auth.IsAuthenticated(authorization) ==> r == Failure(401, Unauthorised)
    ensures Auth.IsAuthenticated(authorization) && file.None? ==> r == Failure(400, NoFile)
    ensures Auth.IsAuthenticated(authorization) && file.Some? && file.value.size > MaxBytes ==>
              r == Failure(413, TooLarge)
    ensures r.Uploaded? <==>
              Auth.IsAuthenticated(authorization) && file.Some? && file.value.size <= MaxBytes
              && detection.Detected? && detection.fileType.mime in AllowedMimes && blobUrl.Some?
    ensures r.Uploaded? ==>
              r == Uploaded(BlobPath(Auth.UserId(authorization), isoNow, nowMs, detection.fileType.ext),
                            file.value.name, detection.fileType.mime, blobUrl.value, file.value.size)
    ensures r.Failure? && r.status == 415 ==> detection.Unrecognised? || (detection.Detected? && detection.fileType.mime !in AllowedMimes)
  {
    if !Auth.IsAuthenticated(authorization) then Failure(401, Unauthorised)
    else if file.None? then Failure(400, NoFile)
    else if file.value.size > MaxBytes then Failure(413, TooLarge)
    else match detection
      case DetectionFailed => Failure(500, StoreFailed)
      case Unrecognised =>
        Failure(415, BadType)
      case Detected(ft) =>
        if ft.mime !in AllowedMimes then
          Failure(415, BadType)
        else if blobUrl.None? then Failure(500, StoreFailed)
        else Uploaded(BlobPath(Auth.UserId(authorization), isoNow, nowMs, ft.ext),
                      file.value.name, ft.mime, blobUrl.value, file.value.size)
  }

  /** A file of exactly 4 MiB passes the size check. */
  lemma ExactLimitAccepted(authorization: Option<string>, name: string, ft: FileType,
                           isoNow: string, nowMs: nat, url: string)
    requires Auth.IsAuthenticated(authorization) && ft.mime in AllowedMimes
    ensures Post(authorization, Some(UploadedFile(name, MaxBytes)), Detected(ft), isoNow, nowMs, Some(url)).Uploaded?
  {
  }

  /** Uploads only ever reach the store for an authenticated caller, so the
      'anonymous' path segment is never used: the path is under the first
      eight characters of the caller's token. */
  lemma StoredUnderCaller(authorization: Option<string>, file: Option<UploadedFile>, detection: Detection,
                          isoNow: string, nowMs: nat, blobUrl: Option<string>)
    requires Post(authorization, file, detection, isoNow, nowMs, blobUrl).Uploaded?
    ensures var user := Auth.UserId(authorization);
            user.Some? && user.value != ""
            && Post(authorization, file, detection, isoNow, nowMs, blobUrl).path ==
                 "mplx/" + user.value + "/" + Day(isoNow) + "/image-" + NatToString(nowMs) + "." + detection.fileType.ext
  {
    Auth.AuthenticatedIff(authorization);
    var user := Auth.UserId(authorization);
    var ext := detection.fileType.ext;
    assert Post(authorization, file, detection, isoNow, nowMs, blobUrl).path == BlobPath(user, isoNow, nowMs, ext);
    assert PathUser(user) == user.value;
    BlobPathShape(user, isoNow, nowMs, ext);
    SpellPath(user.value, Day(isoNow), NatToString(nowMs), ext);
  }

  lemma SpellPath(u: string, d: string, digits: string, ext: string)
    ensures Root + "/" + u + "/" + d + "/" + ("image-" + digits + "." + ext)
            == "mplx/" + u + "/" + d + "/image-" + digits + "." + ext
  {
    assert Root + "/" == "mplx/";
    assert "/" + ("image-" + digits + "." + ext) == "/image-" + digits + "." + ext;
  }
}
