/**
 * The receipt upload endpoint `api/upload.php`: which form field holds the file, the
 * size and type checks, the stored file name and the URL the client gets back.
 *
 * The random source, the upload directory and the file move are parameters.
 */
module UploadApi {
  import opened Text
  import opened Seqs
  import opened Base64
  import opened ApiCommon

  /** An entry of `$_FILES`: the client's file name, the size and the upload error code. */
  datatype FileEntry = FileEntry(name: string, size: int, error: int)

  /** `UPLOAD_ERR_OK` */
  const UploadOk := 0

  /** Ten mebibytes. */
  const MaxSize := 10 * 1024 * 1024

  /** The extensions accepted, in lower case. */
  const Allowed: seq<string> := ["pdf", "jpg", "jpeg", "png", "gif", "webp"]

  /** The form field is present and uploaded without error. */
  predicate Usable(files: map<string, FileEntry>, field: string) {
    field in files && files[field].error == UploadOk
  }

  /** The field the file is read from: "file", else "receipt". */
  function FieldOf(files: map<string, FileEntry>): (field: string)
    ensures field == "file" <==> Usable(files, "file")
    ensures field == "file" || field == "receipt"
  {
    if Usable(files, "file") then "file" else "receipt"
  }

  /** The characters `[a-zA-Z0-9._-]` a stored name may hold. */
  predicate SafeChar(c: char) {
    ('a' <= c <= 'z') || ('A' <= c <= 'Z') || ('0' <= c <= '9') || c == '.' || c == '_' || c == '-'
  }

  /** `safe_name`: the client's name with every other character deleted, or "file" when
      that leaves a PHP-falsy text. */
  function SafeName(name: string): (s: string)
    ensures forall i :: 0 <= i < |s| ==> SafeChar(s[i])
    ensures s == "file" || s == Filter(name, SafeChar)
  {
    var kept := Filter(name, SafeChar);
    if PhpFalsy(kept) then "file" else kept
  }

  /** The lower-case hexadecimal digit of a value below 16. */
  function HexDigit(v: int): char
    requires 0 <= v < 16
  {
    if v < 10 then ('0' as int + v) as char else ('a' as int + v - 10) as char
  }

  /** `bin2hex`: two lower-case hexadecimal digits per byte. */
  function Hex(bytes: seq<byte>): (h: string)
    ensures |h| == 2 * |bytes|
    ensures forall i :: 0 <= i < |h| ==> ('0' <= h[i] <= '9') || ('a' <= h[i] <= 'f')
  {
    if bytes == [] then ""
    else Hex(bytes[..|bytes| - 1]) + [HexDigit(bytes[|bytes| - 1] / 16), HexDigit(bytes[|bytes| - 1] % 16)]
  }

  /** The name the file is stored under: the hex of the random bytes, "_", the safe name. */
  function StoredName(random: seq<byte>, name: string): string {
    Hex(random) + "_" + SafeName(name)
  }

  /** A character `rawurlencode` leaves as it is (section 2.3 of RFC 3986). */
  predicate Unreserved(c: char) {
    ('a' <= c <= 'z') || ('A' <= c <= 'Z') || ('0' <= c <= '9') || c == '-' || c == '.' || c == '_' || c == '~'
  }

  function UpperHexDigit(v: int): char
    requires 0 <= v < 16
  {
    if v < 10 then ('0' as int + v) as char else ('A' as int + v - 10) as char
  }

  /** `%XX` for each byte. */
  function Percent(bytes: seq<nat>): string
    requires forall i :: 0 <= i < |bytes| ==> bytes[i] < 256
  {
    if bytes == [] then ""
    else ['%', UpperHexDigit(bytes[0] / 16), UpperHexDigit(bytes[0] % 16)] + Percent(bytes[1..])
  }

  /** `rawurlencode`: unreserved characters stay, every other one becomes the `%XX`
      escapes of its UTF-8 bytes. */
  function RawUrlEncode(s: string): string {
    if s == [] then ""
    else (if Unreserved(s[0]) then [s[0]] else Percent(Utf8(s[0]))) + RawUrlEncode(s[1..])
  }

  /** Text made of unreserved characters is encoded as itself. */
  lemma {:induction false} RawUrlEncodeUnreserved(s: string)
    requires forall i :: 0 <= i < |s| ==> Unreserved(s[i])
    ensures RawUrlEncode(s) == s
  {
    if s != [] {
      RawUrlEncodeUnreserved(s[1..]);
    }
  }

  const ReceiptPath := "/api/receipt.php?f="

  /** The endpoint's outcome. `Saved` carries the URL returned and the stored name. */
  datatype UploadReply = Refused(status: Status, message: string) | Saved(url: string, stored: string)

  /** The environment: the 8 random bytes drawn, whether the upload directory exists or
      could be created, and whether `move_uploaded_file` succeeded. */
  datatype Disk = Disk(random: seq<byte>, dirReady: bool, moved: bool)

  /** The upload endpoint, check by check. */
  function Upload(verb: string, files: map<string, FileEntry>, disk: Disk): UploadReply {
    if verb != "POST" then Refused(MethodNotAllowed, "Method not allowed")
    else
      var field := FieldOf(files);
      if !Usable(files, field) then Refused(BadRequest, "No file uploaded or upload error")
      else
        var file := files[field];
        if file.size > MaxSize then Refused(BadRequest, "File too large (max 10 MB)")
        else if ToLower(Extension(file.name)) !in Allowed then Refused(BadRequest, "Allowed types: PDF, JPG, PNG, GIF, WEBP")
        else if !disk.dirReady then Refused(ServerError, "Server upload directory not available")
        else
          var stored := StoredName(disk.random, file.name);
          if !disk.moved then Refused(ServerError, "Failed to save file")
          else Saved(ReceiptPath + RawUrlEncode(stored), stored)
  }

  /** The checks in order: 405 for any method but POST, 400 when neither field holds a
      file uploaded without error, and a saved file passed every check: at most 10 MiB,
      an extension from the list (ignoring case), a ready directory and a completed move. */
  lemma UploadChecks(verb: string, files: map<string, FileEntry>, disk: Disk)
    ensures var r := Upload(verb, files, disk);
      (verb != "POST" <==> r == Refused(MethodNotAllowed, "Method not allowed")) &&
      (verb == "POST" && !Usable(files, "file") && !Usable(files, "receipt") ==>
        r == Refused(BadRequest, "No file uploaded or upload error")) &&
      (r.Saved? ==>
        Usable(files, FieldOf(files)) &&
        files[FieldOf(files)].size <= MaxSize &&
        ToLower(Extension(files[FieldOf(files)].name)) in Allowed &&
        disk.dirReady && disk.moved)
  {
  }

  /** A file of exactly 10 MiB is not refused for its size. */
  lemma SizeLimitInclusive(files: map<string, FileEntry>, disk: Disk)
    requires Usable(files, "file") && files["file"].size == MaxSize
    requires ToLower(Extension(files["file"].name)) in Allowed && disk.dirReady && disk.moved
    ensures Upload("POST", files, disk).Saved?
  {
  }

  /** A saved file's name is the 16 hex digits of the 8 random bytes, "_" and the safe
      name, made only of `[a-zA-Z0-9._-]`; the URL is the receipt path followed by that
      very name, which encoding leaves unchanged. */
  lemma SavedNameShape(verb: string, files: map<string, FileEntry>, disk: Disk)
    requires |disk.random| == 8
    requires Upload(verb, files, disk).Saved?
    ensures var r := Upload(verb, files, disk);
      var name := files[FieldOf(files)].name;
      r.stored == Hex(disk.random) + "_" + SafeName(name) && |Hex(disk.random)| == 16 &&
      (forall i :: 0 <= i < |r.stored| ==> SafeChar(r.stored[i])) &&
      r.url == ReceiptPath + r.stored
  {
    var r := Upload(verb, files, disk);
    StoredNameSafe(disk.random, files[FieldOf(files)].name);
    RawUrlEncodeUnreserved(r.stored);
  }

  /** Every stored name is made of `[a-zA-Z0-9._-]`. */
  lemma StoredNameSafe(random: seq<byte>, name: string)
    ensures var s := StoredName(random, name);
      s != [] && forall i :: 0 <= i < |s| ==> SafeChar(s[i]) && Unreserved(s[i])
  {
    var s := StoredName(random, name);
    var h := Hex(random);
    forall i | 0 <= i < |s| ensures SafeChar(s[i]) && Unreserved(s[i]) {
      if i < |h| {
        assert s[i] == h[i];
      } else if i == |h| {
        assert s[i] == '_';
      } else {
        assert s[i] == SafeName(name)[i - |h| - 1];
      }
    }
  }

  /** Once the extension check passes, the safe name keeps the client's name's dot and
      extension, so the "file" fallback never applies to a saved upload. */
  lemma SafeNameKeepsExtension(name: string) returns (y: string, e: string)
    requires ToLower(Extension(name)) in Allowed
    ensures SafeName(name) == Filter(name, SafeChar)
    ensures SafeName(name) == y + ['.'] + e && forall i :: 0 <= i < |y| ==> SafeChar(y[i])
    ensures e == Extension(name) && e != [] && forall i :: 0 <= i < |e| ==> SafeChar(e[i]) && e[i] != '.'
    ensures Extension(SafeName(name)) == Extension(name)
  {
    var k, j := AllowedExtensionDot(name);
    e := Extension(name);
    AllowedLetters(e);
    y := FilterOfName(name, k, j);
    SafeNameOf(name, y, e);
  }

  /** A saved upload's stored name is safe text, a dot, and the extension of the
      client's file name. */
  lemma StoredNameParts(random: seq<byte>, name: string) returns (x: string, e: string)
    requires ToLower(Extension(name)) in Allowed
    ensures StoredName(random, name) == x + ['.'] + e
    ensures forall i :: 0 <= i < |x| ==> SafeChar(x[i])
    ensures e == Extension(name) && e != [] && forall i :: 0 <= i < |e| ==> SafeChar(e[i]) && e[i] != '.'
    ensures Extension(StoredName(random, name)) == e
  {
    var y;
    y, e := SafeNameKeepsExtension(name);
    HexPrefixSafe(random);
    x := PrefixedParts(Hex(random) + "_", y, e);
  }

  /** The hex digits and the underscore before the safe name are safe characters. */
  lemma HexPrefixSafe(random: seq<byte>)
    ensures forall i :: 0 <= i < |Hex(random) + "_"| ==> SafeChar((Hex(random) + "_")[i])
  {
  }

  /** Text of safe characters in front of `y.e` leaves the extension `e`. */
  lemma PrefixedParts(h: string, y: string, e: string) returns (x: string)
    requires forall i :: 0 <= i < |h| ==> SafeChar(h[i])
    requires forall i :: 0 <= i < |y| ==> SafeChar(y[i])
    requires e != [] && forall i :: 0 <= i < |e| ==> SafeChar(e[i]) && e[i] != '.'
    ensures h + (y + ['.'] + e) == x + ['.'] + e && forall i :: 0 <= i < |x| ==> SafeChar(x[i])
    ensures Extension(h + (y + ['.'] + e)) == e
  {
    x := h + y;
    assert h + (y + ['.'] + e) == x + ['.'] + e;
    forall i | 0 <= i < |x| ensures SafeChar(x[i]) {
      if i >= |h| {
        assert x[i] == y[i - |h|];
      }
    }
    ExtensionOfDotted(x, e);
  }

  lemma SafeNameOf(name: string, x: string, e: string)
    requires Filter(name, SafeChar) == x + ['.'] + e
    requires forall i :: 0 <= i < |x| ==> SafeChar(x[i])
    requires e != [] && forall i :: 0 <= i < |e| ==> SafeChar(e[i]) && e[i] != '.'
    ensures SafeName(name) == Filter(name, SafeChar) && Extension(SafeName(name)) == e
  {
    ExtensionOfDotted(x, e);
  }

  /** The filtered name of a path whose basename starts at `k` and has its last dot at
      `j`: the safe characters before that dot, the dot, and the extension. */
  lemma FilterOfName(name: string, k: nat, j: nat) returns (x: string)
    requires k <= |TrimEnd(name, IsSlash)|
    requires var b := TrimEnd(name, IsSlash)[k..];
      j < |b| && b[j] == '.' && forall i :: j < i < |b| ==> SafeChar(b[i])
    ensures forall i :: 0 <= i < |x| ==> SafeChar(x[i])
    ensures Filter(name, SafeChar) == x + ['.'] + TrimEnd(name, IsSlash)[k..][j + 1..]
  {
    var t := TrimEnd(name, IsSlash);
    var b := t[k..];
    x := Filter(t[..k], SafeChar) + Filter(b[..j], SafeChar);
    calc {
      Filter(name, SafeChar);
      { FilterDropsSlashes(name); }
      Filter(t, SafeChar);
      { FilterSplit(t, k); }
      Filter(t[..k], SafeChar) + Filter(b, SafeChar);
      { FilterAroundDot(b, j); }
      x + ['.'] + b[j + 1..];
    }
  }

  /** An allowed extension follows a dot of the basename, which starts at `k` of the
      path without its trailing slashes and has its last dot at `j`. */
  lemma AllowedExtensionDot(name: string) returns (k: nat, j: nat)
    requires ToLower(Extension(name)) in Allowed
    ensures k <= |TrimEnd(name, IsSlash)|
    ensures var b := TrimEnd(name, IsSlash)[k..];
      j < |b| && b[j] == '.' && Extension(name) == b[j + 1..]
  {
    if Extension(name) == "" {
      EmptyNotAllowed();
    }
    var t := TrimEnd(name, IsSlash);
    k := LastIndexOf(t, '/') + 1;
    j := LastIndexOf(t[k..], '.');
  }

  lemma EmptyNotAllowed()
    ensures ToLower("") !in Allowed
  {
    assert ToLower("") == "";
  }

  /** Trailing slashes are filtered out. */
  lemma FilterDropsSlashes(name: string)
    ensures Filter(name, SafeChar) == Filter(TrimEnd(name, IsSlash), SafeChar)
  {
    var t := TrimEnd(name, IsSlash);
    assert name == t + name[|t|..];
    FilterAppend(t, name[|t|..], SafeChar);
    FilterNone(name[|t|..], SafeChar);
  }

  lemma FilterSplit(t: string, k: nat)
    requires k <= |t|
    ensures Filter(t, SafeChar) == Filter(t[..k], SafeChar) + Filter(t[k..], SafeChar)
  {
    assert t == t[..k] + t[k..];
    FilterAppend(t[..k], t[k..], SafeChar);
  }

  /** Around a dot followed by safe characters only, the filter keeps the dot and what
      follows it. */
  lemma FilterAroundDot(b: string, j: int)
    requires 0 <= j < |b| && b[j] == '.'
    requires forall i :: j < i < |b| ==> SafeChar(b[i])
    ensures Filter(b, SafeChar) == Filter(b[..j], SafeChar) + ['.'] + b[j + 1..]
  {
    FilterSplit(b, j);
    FilterFromDot(b, j);
    AppendAssoc(Filter(b[..j], SafeChar), ['.'], b[j + 1..]);
  }

  /** From the dot on, everything is kept. */
  lemma FilterFromDot(b: string, j: int)
    requires 0 <= j < |b| && b[j] == '.'
    requires forall i :: j < i < |b| ==> SafeChar(b[i])
    ensures Filter(b[j..], SafeChar) == ['.'] + b[j + 1..]
  {
    var c := b[j..];
    FilterSplit(c, 1);
    assert c[..1] == ['.'];
    DotKept();
    assert c[1..] == b[j + 1..];
    FilterAllKept(c[1..], SafeChar);
  }

  lemma DotKept()
    ensures Filter(['.'], SafeChar) == ['.']
  {
    assert ['.'][..0] == [];
  }

  /** An allowed extension is made of ASCII letters. */
  lemma AllowedLetters(e: string)
    requires ToLower(e) in Allowed
    ensures forall i :: 0 <= i < |e| ==> SafeChar(e[i]) && e[i] != '.' && e[i] != '/'
    ensures e != []
  {
    forall i | 0 <= i < |e| ensures SafeChar(e[i]) && e[i] != '.' && e[i] != '/' {
      assert 'a' <= ToLower(e)[i] <= 'z';
    }
  }

  /** Safe text followed by a dot and a dot-free extension has that extension. */
  lemma ExtensionOfDotted(x: string, e: string)
    requires forall i :: 0 <= i < |x| ==> SafeChar(x[i])
    requires e != [] && forall i :: 0 <= i < |e| ==> SafeChar(e[i]) && e[i] != '.'
    ensures Extension(x + ['.'] + e) == e
    ensures !PhpFalsy(x + ['.'] + e)
  {
    var s := x + ['.'] + e;
    assert forall i :: 0 <= i < |s| ==> s[i] != '/';
    assert s[|s| - 1] == e[|e| - 1];
    TrimUnchangedSlash(s);
    assert LastIndexOf(s, '/') == -1;
    assert Basename(s) == s;
    assert s[|x|] == '.';
    assert s[|x| + 1..] == e;
    LastDot(s, |x|);
  }

  lemma TrimUnchangedSlash(s: string)
    requires s != [] && s[|s| - 1] != '/'
    ensures TrimEnd(s, IsSlash) == s
  {
  }

  /** The last "." of a text, when nothing after position `k` is a dot. */
  lemma LastDot(s: string, k: int)
    requires 0 <= k < |s| && s[k] == '.'
    requires forall i :: k < i < |s| ==> s[i] != '.'
    ensures LastIndexOf(s, '.') == k
  {
  }
}
