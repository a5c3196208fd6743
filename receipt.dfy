/**
 * The receipt file endpoint `api/receipt.php`: it checks the requested name, then
 * deletes the file (DELETE, signed-in callers only) or serves it with a content type
 * chosen by its extension (any other method).
 *
 * The file system and the sign-in check are parameters.
 */
module ReceiptApi {
  import opened Wrappers
  import opened Text
  import opened Seqs
  import opened Base64
  import opened ApiCommon
  import opened UploadApi

  /** The requested name is non-empty and made only of `[a-zA-Z0-9._-]`. */
  predicate ValidName(f: string) {
    f != "" && forall i :: 0 <= i < |f| ==> SafeChar(f[i])
  }

  /** The name the endpoint works with: the basename of `?f=`, "" when absent. */
  function RequestedName(f: Option<string>): (name: string)
    ensures '/' !in name
  {
    Basename(f.GetOr(""))
  }

  /** The content type for a lower-cased extension. */
  function Mime(ext: string): string {
    if ext == "pdf" then "application/pdf"
    else if ext == "jpg" || ext == "jpeg" then "image/jpeg"
    else if ext == "png" then "image/png"
    else if ext == "gif" then "image/gif"
    else if ext == "webp" then "image/webp"
    else "application/octet-stream"
  }

  /** `basename($f, ".pdf")` of a name without slashes: a trailing ".pdf" (this exact
      case) is dropped unless it is the whole name. */
  function DispositionName(f: string): (d: string)
    ensures EndsWith(f, ".pdf") && |f| > 4 ==> d + ".pdf" == f
    ensures !(EndsWith(f, ".pdf") && |f| > 4) ==> d == f
  {
    if EndsWith(f, ".pdf") && |f| > 4 then f[..|f| - 4] else f
  }

  /** The replies. `Json` marks the DELETE replies, which have a JSON body; the others
      are plain text or the file. `AuthRefused` is the refusal of the sign-in check. */
  datatype ReceiptReply =
    | Failed(status: Status, message: string, json: bool)
    | AuthRefused
    | Deleted
    | Served(contentType: string, filename: string)
  {
    function StatusCode(): Status {
      match this
      case Failed(s, _, _) => s
      case AuthRefused => Unauthorized
      case _ => Ok
    }
  }

  /** The file system as the endpoint sees it: whether the file exists and whether
      deleting it succeeds. */
  datatype Files = Files(exists_: bool, unlinks: bool)

  /** The endpoint; the method defaults to GET, `signedIn` is the sign-in check's verdict. */
  function Receipt(verb: Option<string>, f: Option<string>, signedIn: bool, fs: Files): ReceiptReply {
    var method_ := verb.GetOr("GET");
    var name := RequestedName(f);
    if !ValidName(name) then Failed(BadRequest, "Invalid file", method_ == "DELETE")
    else if method_ == "DELETE" then
      if !signedIn then AuthRefused
      else if !fs.exists_ then Failed(NotFound, "Not found", true)
      else if !fs.unlinks then Failed(ServerError, "Failed to delete file", true)
      else Deleted
    else if !fs.exists_ then Failed(NotFound, "Not found", false)
    else Served(Mime(ToLower(Extension(name))), DispositionName(name))
  }

  /** A name outside the alphabet is refused with 400 before anything else, for every
      method, with a JSON body exactly for DELETE. */
  lemma InvalidNameRefused(verb: Option<string>, f: Option<string>, signedIn: bool, fs: Files)
    requires !ValidName(RequestedName(f))
    ensures Receipt(verb, f, signedIn, fs) == Failed(BadRequest, "Invalid file", verb.GetOr("GET") == "DELETE")
  {
  }

  /** DELETE of a valid name: the sign-in refusal, then 404 for a missing file, 500 when
      deleting fails, and otherwise `ok`; it deletes only for a signed-in caller. */
  lemma DeleteOutcome(f: Option<string>, signedIn: bool, fs: Files)
    requires ValidName(RequestedName(f))
    ensures var r := Receipt(Some("DELETE"), f, signedIn, fs);
      (r == AuthRefused <==> !signedIn) &&
      (r.StatusCode() == NotFound <==> signedIn && !fs.exists_) &&
      (r.StatusCode() == ServerError <==> signedIn && fs.exists_ && !fs.unlinks) &&
      (r == Deleted <==> signedIn && fs.exists_ && fs.unlinks)
  {
  }

  /** Any other method serves an existing file, signed in or not, and answers 404 for a
      missing one. */
  lemma ServeOutcome(verb: Option<string>, f: Option<string>, signedIn: bool, fs: Files)
    requires ValidName(RequestedName(f)) && verb.GetOr("GET") != "DELETE"
    ensures var r := Receipt(verb, f, signedIn, fs);
      (r.Served? <==> fs.exists_) &&
      (!fs.exists_ ==> r == Failed(NotFound, "Not found", false)) &&
      (r.Served? ==> r == Served(Mime(ToLower(Extension(RequestedName(f)))), DispositionName(RequestedName(f))))
  {
  }

  /** Each accepted upload type has its own content type, and everything else is sent
      as `application/octet-stream`. */
  lemma MimeTable(ext: string)
    ensures Mime(ext) != "application/octet-stream" <==> ext in Allowed
    ensures ext == "jpg" || ext == "jpeg" <==> Mime(ext) == "image/jpeg"
  {
  }

  /** Every name the upload endpoint stores is accepted here as it is. */
  lemma StoredNamesPass(random: seq<byte>, name: string)
    ensures RequestedName(Some(StoredName(random, name))) == StoredName(random, name)
    ensures ValidName(StoredName(random, name))
  {
    var s := StoredName(random, name);
    StoredNameSafe(random, name);
    NoSlashBasename(s);
  }

  /** A name without slashes is its own basename. */
  lemma NoSlashBasename(s: string)
    requires s != [] && forall i :: 0 <= i < |s| ==> SafeChar(s[i])
    ensures Basename(s) == s
  {
    assert s[|s| - 1] != '/';
    TrimUnchangedSlash(s);
    assert '/' !in s;
  }

  /** A receipt served from a saved upload has the content type of the extension the
      client's file had: a PDF comes back as `application/pdf`, a JPEG as `image/jpeg`. */
  lemma SavedUploadServedByType(random: seq<byte>, name: string, fs: Files)
    requires ToLower(Extension(name)) in Allowed && fs.exists_
    ensures Receipt(None, Some(StoredName(random, name)), false, fs).Served?
    ensures Receipt(None, Some(StoredName(random, name)), false, fs).contentType ==
      Mime(ToLower(Extension(name)))
  {
    var s := StoredName(random, name);
    var x, e := StoredNameParts(random, name);
    StoredNamesPass(random, name);
    ServeOutcome(None, Some(s), false, fs);
  }
}
