/**
 * Image upload (app/api/file_upload.py): which file names are accepted, the
 * order of the checks, the stored name and the reply; and how the two admin
 * forms (static/js/app.js, static/js/admin.js) read that reply.
 */
module FileUpload {
  import opened Wrappers
  import opened Strings

  const Allowed: set<string> := {".jpg", ".jpeg", ".png", ".gif", ".webp"}

  /** `MAX_FILE_SIZE` in app/core/config.py: 10 MiB. */
  const MaxFileSize: nat := 10485760

  const UploadsPrefix: string := "/uploads/"
  const SuccessMessage: string := "File uploaded successfully"

  /** A path component that names nothing: empty (from a doubled or trailing slash) or ".". */
  predicate Unnamed(c: string) { c == "" || c == "." }

  /** The path components that name something, in order. */
  function Named(parts: seq<string>): (r: seq<string>)
    ensures forall c :: c in r <==> c in parts && !Unnamed(c)
  {
    if parts == [] then []
    else if Unnamed(parts[0]) then Named(parts[1..])
    else [parts[0]] + Named(parts[1..])
  }

  /** The last named component is a component after which nothing is named. */
  lemma NamedLast(parts: seq<string>)
    requires Named(parts) != []
    ensures exists k :: 0 <= k < |parts| && parts[k] == Named(parts)[|Named(parts)| - 1]
                        && forall j :: k < j < |parts| ==> Unnamed(parts[j])
  {
    var k := NamedLastIndex(parts);
  }

  /** Where the last named component sits. */
  lemma {:induction false} NamedLastIndex(parts: seq<string>) returns (k: nat)
    requires Named(parts) != []
    ensures k < |parts| && parts[k] == Named(parts)[|Named(parts)| - 1]
    ensures forall j :: k < j < |parts| ==> Unnamed(parts[j])
  {
    var r := Named(parts);
    var rest := Named(parts[1..]);
    if rest != [] {
      var k' := NamedLastIndex(parts[1..]);
      k := k' + 1;
      assert r[|r| - 1] == rest[|rest| - 1];
      assert forall j :: k < j < |parts| ==> parts[j] == parts[1..][j - 1];
    } else {
      k := 0;
      assert forall j :: 0 < j < |parts| ==> parts[j] in parts[1..];
      assert r == [parts[0]];
    }
  }

  /**
   * `PurePosixPath(filename).name`: the last slash-separated component that
   * names something, or "" when none does.
   */
  function Name(filename: string): (r: string)
    ensures var parts := Split(filename, "/");
            && (r == "" <==> forall j :: 0 <= j < |parts| ==> Unnamed(parts[j]))
            && (r != "" ==> exists k :: 0 <= k < |parts| && parts[k] == r && r != "."
                                       && forall j :: k < j < |parts| ==> Unnamed(parts[j]))
  {
    var parts := Split(filename, "/");
    var named := Named(parts);
    if named == [] then
      assert forall j :: 0 <= j < |parts| ==> parts[j] in parts;
      ""
    else
      NamedLast(parts);
      named[|named| - 1]
  }

  /** The index of the last occurrence of `c`. */
  function LastIndexOf(s: string, c: char): (r: Option<nat>)
    ensures r.Some? ==> r.value < |s| && s[r.value] == c && forall k :: r.value < k < |s| ==> s[k] != c
    ensures r.None? <==> c !in s
  {
    if s == [] then None
    else if s[|s| - 1] == c then Some(|s| - 1)
    else
      var r := LastIndexOf(s[..|s| - 1], c);
      assert s == s[..|s| - 1] + [s[|s| - 1]];
      r
  }

  /**
   * `PurePath.suffix` of a name: from the last dot on, when that dot is
   * neither the first nor the last character; otherwise "".
   */
  function Suffix(name: string): (r: string)
    ensures r == "" || (2 <= |r| < |name| && r == name[|name| - |r|..] && r[0] == '.' && '.' !in r[1..])
    ensures r == "" <==> (LastIndexOf(name, '.').None? || LastIndexOf(name, '.').value == 0
                          || LastIndexOf(name, '.').value == |name| - 1)
  {
    match LastIndexOf(name, '.')
    case None => ""
    case Some(i) =>
      if 0 < i < |name| - 1 then
        assert forall k :: 0 <= k < |name[i..][1..]| ==> name[i..][1..][k] == name[i + 1 + k];
        name[i..]
      else ""
  }

  /** `is_allowed_file`. */
  predicate IsAllowedFile(filename: string)
  {
    Lower(Suffix(Name(filename))) in Allowed
  }

  /** An accepted name has an extension of four or five characters after a non-empty stem. */
  lemma AllowedHasStemAndExtension(filename: string)
    requires IsAllowedFile(filename)
    ensures var s := Suffix(Name(filename)); 4 <= |s| <= 5 && |s| < |Name(filename)|
  {
    var s := Suffix(Name(filename));
    assert |Lower(s)| == |s|;
  }

  /** Upper-case extensions pass. */
  lemma UpperCaseAllowed()
    ensures IsAllowedFile("A.JPG")
  {
    PlainName("A.JPG");
    assert LastIndexOf("A.JPG", '.') == Some(1);
    assert Suffix("A.JPG") == ".JPG";
    assert Lower(".JPG") == ".jpg";
  }

  /** Only the last extension counts. */
  lemma DoubleExtensionRefused()
    ensures !IsAllowedFile("x.png.exe")
  {
    assert Name("x.png.exe") == "x.png.exe" by {
      PlainName("x.png.exe");
    }
    LastExtension();
    ExeNotAllowed();
  }

  lemma ExeNotAllowed()
    ensures Lower(".exe") !in Allowed
  {
    assert Lower(".exe") == ".exe";
    assert ".exe"[1] == 'e';
  }

  lemma LastExtension()
    ensures Suffix("x.png.exe") == ".exe"
  {
    var name := "x.png.exe";
    assert name[5] == '.' && name[6] != '.' && name[7] != '.' && name[8] != '.';
    assert LastIndexOf(name, '.') == Some(5);
    assert name[5..] == ".exe";
  }

  /** A name that is only an extension has none. */
  lemma BareExtensionRefused()
    ensures !IsAllowedFile(".png")
  {
    PlainName(".png");
    assert LastIndexOf(".png", '.') == Some(0);
    assert Suffix(".png") == "";
    assert Lower("") == "";
  }

  /** A name without a slash that is neither "" nor "." is its own last component. */
  lemma PlainName(s: string)
    requires '/' !in s && s != "" && s != "."
    ensures Name(s) == s
  {
    NoCharNoFind(s, "/");
    assert Split(s, "/") == [s];
    assert Named([s]) == [s] + Named([]);
  }

  datatype UploadError = BadType | TooLarge

  /** The reply of an accepted upload. */
  datatype UploadReply = UploadReply(message: string, filename: string, url: string)

  /**
   * `upload_image` on a file name, the byte count read and the generated
   * uuid text: the extension is checked before the size, a file of exactly
   * the maximum size passes, and the stored name is the uuid and the
   * original suffix in its original case. The write itself is not modelled.
   */
  function UploadImage(filename: string, size: nat, uuid: string): (r: Result<UploadReply, UploadError>)
    ensures r == Err(BadType) <==> !IsAllowedFile(filename)
    ensures r == Err(TooLarge) <==> IsAllowedFile(filename) && size > MaxFileSize
    ensures r.Ok? ==> r.value.message == SuccessMessage
                      && r.value.filename == uuid + Suffix(Name(filename))
                      && r.value.url == UploadsPrefix + r.value.filename
  {
    if !IsAllowedFile(filename) then Err(BadType)
    else if size > MaxFileSize then Err(TooLarge)
    else
      var unique := uuid + Suffix(Name(filename));
      Ok(UploadReply(SuccessMessage, unique, UploadsPrefix + unique))
  }

  /**
   * A stored name made from a uuid without slashes or dots keeps the
   * extension it was accepted for, so it would be accepted again.
   */
  lemma StoredNameAcceptedAgain(filename: string, size: nat, uuid: string)
    requires uuid != "" && '/' !in uuid && '.' !in uuid
    requires UploadImage(filename, size, uuid).Ok?
    ensures Suffix(Name(UploadImage(filename, size, uuid).value.filename)) == Suffix(Name(filename))
    ensures IsAllowedFile(UploadImage(filename, size, uuid).value.filename)
  {
    var sfx := Suffix(Name(filename));
    assert |sfx| >= 2 by {
      assert |Lower(sfx)| == |sfx|;
      assert Lower("") == "";
    }
    NameHasNoSlash(filename);
    assert '/' !in sfx by {
      assert forall k :: 0 <= k < |sfx| ==> sfx[k] == Name(filename)[|Name(filename)| - |sfx| + k];
    }
    SuffixOfStored(uuid, sfx);
  }

  /** The stored name's suffix is the one appended to the uuid. */
  lemma SuffixOfStored(uuid: string, sfx: string)
    requires uuid != "" && '/' !in uuid && '.' !in uuid
    requires |sfx| >= 2 && sfx[0] == '.' && '.' !in sfx[1..] && '/' !in sfx
    ensures Suffix(Name(uuid + sfx)) == sfx
  {
    var stored := uuid + sfx;
    assert forall k :: 0 <= k < |stored| ==> stored[k] == (if k < |uuid| then uuid[k] else sfx[k - |uuid|]);
    assert '/' !in stored;
    assert stored != "." by {
      assert |stored| >= 3;
    }
    PlainName(stored);
    assert forall k :: 1 <= k < |sfx| ==> sfx[k] == sfx[1..][k - 1];
    assert LastIndexOf(stored, '.') == Some(|uuid|);
    assert stored[|uuid|..] == sfx;
  }

  /** The last component of a path holds no slash. */
  lemma NameHasNoSlash(filename: string)
    ensures '/' !in Name(filename)
  {
    SplitPiecesHaveNoSlash(filename);
  }

  lemma {:induction false} SplitPiecesHaveNoSlash(s: string)
    ensures forall c :: c in Split(s, "/") ==> '/' !in c
    decreases |s|
  {
    match Find(s, "/")
    case None =>
      NoSlashWithoutFind(s);
    case Some(i) =>
      SplitPiecesHaveNoSlash(s[i + 1..]);
      PrefixBeforeFind(s, i);
  }

  lemma NoSlashWithoutFind(s: string)
    requires Find(s, "/").None?
    ensures '/' !in s
  {
    forall k | 0 <= k < |s|
      ensures s[k] != '/'
    {
      assert !OccursAt(s, "/", k);
      assert s[k..k + 1] == [s[k]];
    }
  }

  lemma PrefixBeforeFind(s: string, i: nat)
    requires Find(s, "/") == Some(i)
    ensures '/' !in s[..i]
  {
    forall k | 0 <= k < i
      ensures s[..i][k] != '/'
    {
      assert !OccursAt(s, "/", k);
      assert s[k..k + 1] == [s[k]];
    }
  }

  /** The JSON body the browser receives: the reply's three keys, or FastAPI's `detail` on an error. */
  function ReplyJson(r: Result<UploadReply, UploadError>): (m: map<string, string>)
    ensures r.Ok? ==> m.Keys == {"message", "filename", "url"} && m["url"] == r.value.url
    ensures r.Err? ==> m.Keys == {"detail"}
  {
    match r
    case Ok(reply) => map["message" := reply.message, "filename" := reply.filename, "url" := reply.url]
    case Err(BadType) => map["detail" := "File type not allowed"]
    case Err(TooLarge) => map["detail" := "File too large"]
  }

  /**
   * The forms as written: the image is taken only when the body has a truthy
   * `success`, from `data.fileUrl` (static/js/app.js) or `data`
   * (static/js/admin.js).
   */
  function FormImageAsWritten(body: map<string, string>): (r: Option<string>)
    ensures r.Some? ==> "success" in body && "data" in body
  {
    if "success" in body && body["success"] != "" && "data" in body then Some(body["data"]) else None
  }

  /** Whatever file is sent and whatever the server answers, the forms as written store no image. */
  lemma UploadedImageAlwaysDropped(filename: string, size: nat, uuid: string)
    ensures FormImageAsWritten(ReplyJson(UploadImage(filename, size, uuid))).None?
  {
    var body := ReplyJson(UploadImage(filename, size, uuid));
    assert "success" !in body by {
      assert "success" != "message" && "success" != "filename" && "success" != "url" && "success" != "detail";
    }
  }

  /** The forms reading the reply the server sends: the `url` of an accepted upload. */
  function FormImage(body: map<string, string>): (r: Option<string>)
    ensures r.Some? <==> "url" in body
    ensures r.Some? ==> r.value == body["url"]
  {
    if "url" in body then Some(body["url"]) else None
  }

  /** An accepted upload is stored with its url; a refused one leaves the post without an image. */
  lemma UploadedImageKept(filename: string, size: nat, uuid: string)
    ensures UploadImage(filename, size, uuid).Ok? ==>
              FormImage(ReplyJson(UploadImage(filename, size, uuid))) ==
                Some(UploadsPrefix + uuid + Suffix(Name(filename)))
    ensures UploadImage(filename, size, uuid).Err? ==>
              FormImage(ReplyJson(UploadImage(filename, size, uuid))).None?
  {
    var r := UploadImage(filename, size, uuid);
    ReplyRead(r);
    if r.Ok? {
      assert UploadsPrefix + uuid + Suffix(Name(filename)) == UploadsPrefix + (uuid + Suffix(Name(filename)));
    }
  }

  lemma ReplyRead(r: Result<UploadReply, UploadError>)
    ensures FormImage(ReplyJson(r)) == if r.Ok? then Some(r.value.url) else None
  {
    assert "url" != "detail";
  }
}
