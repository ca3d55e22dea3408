/** The image-hosting helpers: the checks and form fields of an unsigned upload, the delivery URL of
    a stored image, and the client-side delete that is not available. The two configuration values
    come from the build environment, each with a built-in default. */
module Cloudinary {
  import opened Common
  import opened JsText

  /** The build environment's two variables; `None` when unset. */
  datatype Env = Env(cloudName: Option<string>, uploadPreset: Option<string>)

  const DefaultCloudName := "dw4pf6awx"
  const DefaultUploadPreset := "isaraya_unsigned"

  /** The cloud name in use. It is never empty, so the "configuration is missing" checks of the
      upload and of the delivery URL never fire. */
  function CloudName(env: Env): (name: string)
    ensures name != ""
  {
    OrDefault(env.cloudName, DefaultCloudName)
  }

  function UploadPreset(env: Env): (preset: string)
    ensures preset != ""
  {
    OrDefault(env.uploadPreset, DefaultUploadPreset)
  }

  /** The file chosen for upload: its MIME type and its size in bytes. */
  datatype File = File(name: string, mimeType: string, size: nat)

  datatype UploadOptions = UploadOptions(
    folder: Option<string>, transformation: Option<string>, tags: Option<seq<string>>)

  /** The largest accepted file: 10 MiB. */
  const MaxFileSize: nat := 10 * 1024 * 1024

  datatype CloudinaryError =
    | NotAnImage            // "Le fichier doit être une image"
    | FileTooLarge          // "L'image ne doit pas dépasser 10 MB"
    | DeleteNotAvailable    // "Delete operation not available on client side"

  datatype FormValue = FileValue(file: File) | TextValue(text: string)

  /** One `FormData` entry. */
  datatype FormEntry = FormEntry(name: string, value: FormValue)

  /** The request an upload sends: the endpoint and the multipart form, entries in order. */
  datatype UploadRequest = UploadRequest(url: string, form: seq<FormEntry>)

  /** The upload endpoint of a cloud. */
  function UploadUrl(cloudName: string): string {
    "https://api.cloudinary.com/v1_1/" + cloudName + "/image/upload"
  }

  /** The position of each entry name in the order the upload appends them. */
  function Rank(name: string): nat {
    if name == "file" then 0
    else if name == "upload_preset" then 1
    else if name == "folder" then 2
    else if name == "tags" then 3
    else 4
  }

  /** `entries` holds the text entry `name` with value `v`. */
  predicate HasText(entries: seq<FormEntry>, name: string, v: string) {
    exists i :: 0 <= i < |entries| && entries[i] == FormEntry(name, TextValue(v))
  }

  /** `entries` has an entry called `name`. */
  predicate HasName(entries: seq<FormEntry>, name: string) {
    exists i :: 0 <= i < |entries| && entries[i].name == name
  }

  /** `list.join(sep)`. */
  function Join(list: seq<string>, sep: char): (s: string)
    ensures |list| == 1 ==> s == list[0]
  {
    if list == [] then ""
    else if |list| == 1 then list[0]
    else list[0] + [sep] + Join(list[1..], sep)
  }

  /** `s.split(sep)`: the pieces between separators, at least one. */
  function Split(s: string, sep: char): (pieces: seq<string>)
    ensures |pieces| >= 1
    ensures forall i :: 0 <= i < |pieces| ==> sep !in pieces[i]
    decreases |s|
  {
    FindIndexSpec(s, (c: char) => c == sep);
    match FindIndex(s, (c: char) => c == sep)
    case None => [s]
    case Some(i) => [s[..i]] + Split(s[i + 1..], sep)
  }

  /** Splitting the joined tags on the separator gives them back, provided no tag holds it. */
  lemma {:induction false} SplitJoin(list: seq<string>, sep: char)
    requires |list| >= 1
    requires forall i :: 0 <= i < |list| ==> sep !in list[i]
    ensures Split(Join(list, sep), sep) == list
    decreases |list|
  {
    if |list| == 1 {
      FindIndexSpec(list[0], (c: char) => c == sep);
    } else {
      var head := list[0];
      var rest := Join(list[1..], sep);
      var s := head + [sep] + rest;
      assert Join(list, sep) == s;
      FindIndexSpec(s, (c: char) => c == sep);
      var k := FindIndex(s, (c: char) => c == sep);
      assert s[|head|] == sep;
      assert forall j :: 0 <= j < |head| ==> s[j] == head[j];
      assert k == Some(|head|);
      assert s[..|head|] == head;
      assert s[|head| + 1..] == rest;
      SplitJoin(list[1..], sep);
      assert list == [head] + list[1..];
    }
  }

  /** The entry for one optional field: present only when `given`. */
  function Optional(given: bool, name: string, v: string): seq<FormEntry> {
    if given then [FormEntry(name, TextValue(v))] else []
  }

  /** The entries' names come in strictly increasing rank: each name at most once, in the order
      the upload appends them. */
  predicate Ordered(form: seq<FormEntry>) {
    forall i, j :: 0 <= i < j < |form| ==> Rank(form[i].name) < Rank(form[j].name)
  }

  /** Appending an optional entry whose rank is above every present one keeps the form ordered,
      and adds its name, and only its name, when it is given. */
  lemma AppendOptional(form: seq<FormEntry>, given: bool, name: string, v: string)
    requires Ordered(form) && forall i :: 0 <= i < |form| ==> Rank(form[i].name) < Rank(name)
    ensures var f := form + Optional(given, name, v);
      Ordered(f) && (forall i :: 0 <= i < |f| ==> Rank(f[i].name) <= Rank(name))
      && (forall n :: HasName(f, n) <==> HasName(form, n) || (given && n == name))
      && (given ==> HasText(f, name, v))
      && (forall n, w :: HasText(form, n, w) ==> HasText(f, n, w))
  {
    var f := form + Optional(given, name, v);
    if given {
      assert f[|form|] == FormEntry(name, TextValue(v));
      forall n | HasName(f, n) ensures HasName(form, n) || n == name {
        var i :| 0 <= i < |f| && f[i].name == n;
        if i < |form| { assert form[i].name == n; }
      }
      forall n, w | HasText(form, n, w) ensures HasText(f, n, w) {
        var i :| 0 <= i < |form| && form[i] == FormEntry(n, TextValue(w));
        assert f[i] == form[i];
      }
      forall n | HasName(form, n) ensures HasName(f, n) {
        var i :| 0 <= i < |form| && form[i].name == n;
        assert f[i] == form[i];
      }
    } else {
      assert f == form;
    }
  }

  /** The form of an accepted upload: `file`, `upload_preset`, then the optional fields. */
  function UploadForm(preset: string, file: File, options: UploadOptions): (form: seq<FormEntry>)
    ensures |form| >= 2 && form[0] == FormEntry("file", FileValue(file))
      && form[1] == FormEntry("upload_preset", TextValue(preset))
  {
    [FormEntry("file", FileValue(file)), FormEntry("upload_preset", TextValue(preset))]
    + Optional(HasFolder(options), "folder", options.folder.GetOr(""))
    + Optional(HasTags(options), "tags", Join(options.tags.GetOr([]), ','))
    + Optional(HasTransformation(options), "transformation", options.transformation.GetOr(""))
  }

  predicate HasFolder(options: UploadOptions) {
    options.folder.Some? && options.folder.value != ""
  }

  predicate HasTags(options: UploadOptions) {
    options.tags.Some? && |options.tags.value| > 0
  }

  predicate HasTransformation(options: UploadOptions) {
    options.transformation.Some? && options.transformation.value != ""
  }

  /** The form's first two entries, then the folder: each name once, in append order; `folder`
      present exactly when given, with its value. */
  lemma UploadFormThroughFolder(preset: string, file: File, options: UploadOptions)
    ensures var f := [FormEntry("file", FileValue(file)), FormEntry("upload_preset", TextValue(preset))]
                     + Optional(HasFolder(options), "folder", options.folder.GetOr(""));
      Ordered(f) && (forall i :: 0 <= i < |f| ==> Rank(f[i].name) <= 2)
      && (forall n :: HasName(f, n) <==> n == "file" || n == "upload_preset" || (HasFolder(options) && n == "folder"))
      && (HasFolder(options) ==> HasText(f, "folder", options.folder.value))
  {
    var head := [FormEntry("file", FileValue(file)), FormEntry("upload_preset", TextValue(preset))];
    forall n ensures HasName(head, n) <==> n == "file" || n == "upload_preset" {
      if n == "file" { assert head[0].name == n; }
      if n == "upload_preset" { assert head[1].name == n; }
    }
    AppendOptional(head, HasFolder(options), "folder", options.folder.GetOr(""));
  }

  /** The form up to the tags: each name once, in append order; `folder` and `tags` present
      exactly when given, with their values. */
  lemma UploadFormThroughTags(preset: string, file: File, options: UploadOptions)
    ensures var f := [FormEntry("file", FileValue(file)), FormEntry("upload_preset", TextValue(preset))]
                     + Optional(HasFolder(options), "folder", options.folder.GetOr(""))
                     + Optional(HasTags(options), "tags", Join(options.tags.GetOr([]), ','));
      Ordered(f) && (forall i :: 0 <= i < |f| ==> Rank(f[i].name) <= 3)
      && (HasName(f, "folder") <==> HasFolder(options))
      && (HasFolder(options) ==> HasText(f, "folder", options.folder.value))
      && (HasName(f, "tags") <==> HasTags(options))
      && (HasTags(options) ==> HasText(f, "tags", Join(options.tags.value, ',')))
  {
    UploadFormThroughFolder(preset, file, options);
    var f1 := [FormEntry("file", FileValue(file)), FormEntry("upload_preset", TextValue(preset))]
              + Optional(HasFolder(options), "folder", options.folder.GetOr(""));
    AppendOptional(f1, HasTags(options), "tags", Join(options.tags.GetOr([]), ','));
  }

  /** The whole form is ordered: each name at most once, in append order. */
  lemma UploadFormOrdered(preset: string, file: File, options: UploadOptions)
    ensures Ordered(UploadForm(preset, file, options))
  {
    UploadFormThroughTags(preset, file, options);
    var f2 := [FormEntry("file", FileValue(file)), FormEntry("upload_preset", TextValue(preset))]
              + Optional(HasFolder(options), "folder", options.folder.GetOr(""))
              + Optional(HasTags(options), "tags", Join(options.tags.GetOr([]), ','));
    AppendOptional(f2, HasTransformation(options), "transformation", options.transformation.GetOr(""));
  }

  /** Appending an optional entry under another name leaves the presence and the value of `n`
      as they were. */
  lemma AppendOtherName(form: seq<FormEntry>, given: bool, name: string, v: string, n: string)
    requires n != name
    ensures var f := form + Optional(given, name, v);
      (HasName(f, n) <==> HasName(form, n))
      && (forall w :: HasText(form, n, w) ==> HasText(f, n, w))
  {
    var f := form + Optional(given, name, v);
    if HasName(f, n) {
      var i :| 0 <= i < |f| && f[i].name == n;
      assert i < |form| && form[i] == f[i];
    }
    if HasName(form, n) {
      var i :| 0 <= i < |form| && form[i].name == n;
      assert f[i] == form[i];
    }
    forall w | HasText(form, n, w) ensures HasText(f, n, w) {
      var i :| 0 <= i < |form| && form[i] == FormEntry(n, TextValue(w));
      assert f[i] == form[i];
    }
  }

  /** Appending the transformation keeps the folder and the tags. */
  lemma UploadFormKeepsEarlier(preset: string, file: File, options: UploadOptions)
    ensures var form := UploadForm(preset, file, options);
      (HasName(form, "folder") <==> HasFolder(options))
      && (HasFolder(options) ==> HasText(form, "folder", options.folder.value))
      && (HasName(form, "tags") <==> HasTags(options))
      && (HasTags(options) ==> HasText(form, "tags", Join(options.tags.value, ',')))
  {
    UploadFormThroughTags(preset, file, options);
    var f2 := [FormEntry("file", FileValue(file)), FormEntry("upload_preset", TextValue(preset))]
              + Optional(HasFolder(options), "folder", options.folder.GetOr(""))
              + Optional(HasTags(options), "tags", Join(options.tags.GetOr([]), ','));
    AppendOtherName(f2, HasTransformation(options), "transformation", options.transformation.GetOr(""), "folder");
    AppendOtherName(f2, HasTransformation(options), "transformation", options.transformation.GetOr(""), "tags");
  }

  /** The transformation is the last entry, present exactly when given. */
  lemma UploadFormTransformation(preset: string, file: File, options: UploadOptions)
    ensures var form := UploadForm(preset, file, options);
      (HasName(form, "transformation") <==> HasTransformation(options))
      && (HasTransformation(options) ==> HasText(form, "transformation", options.transformation.value))
  {
    UploadFormThroughTags(preset, file, options);
    var f2 := [FormEntry("file", FileValue(file)), FormEntry("upload_preset", TextValue(preset))]
              + Optional(HasFolder(options), "folder", options.folder.GetOr(""))
              + Optional(HasTags(options), "tags", Join(options.tags.GetOr([]), ','));
    AppendOptional(f2, HasTransformation(options), "transformation", options.transformation.GetOr(""));
    assert !HasName(f2, "transformation");
  }

  /** The whole form is ordered, and each optional field is present exactly when given, with its
      value; the tags are sent joined by commas. */
  lemma UploadFormFields(preset: string, file: File, options: UploadOptions)
    ensures var form := UploadForm(preset, file, options);
      Ordered(form)
      && (HasName(form, "folder") <==> HasFolder(options))
      && (HasFolder(options) ==> HasText(form, "folder", options.folder.value))
      && (HasName(form, "tags") <==> HasTags(options))
      && (HasTags(options) ==> HasText(form, "tags", Join(options.tags.value, ',')))
      && (HasName(form, "transformation") <==> HasTransformation(options))
      && (HasTransformation(options) ==> HasText(form, "transformation", options.transformation.value))
  {
    UploadFormOrdered(preset, file, options);
    UploadFormKeepsEarlier(preset, file, options);
    UploadFormTransformation(preset, file, options);
  }

  /** The appends of `uploadToCloudinary`: `file`, `upload_preset`, then each optional field that
      is given, in that order. */
  method BuildForm(preset: string, file: File, options: UploadOptions) returns (form: seq<FormEntry>)
    ensures form == UploadForm(preset, file, options)
  {
    form := [FormEntry("file", FileValue(file))];
    form := form + [FormEntry("upload_preset", TextValue(preset))];
    if options.folder.Some? && options.folder.value != "" {
      form := form + [FormEntry("folder", TextValue(options.folder.value))];
    }
    if options.tags.Some? && |options.tags.value| > 0 {
      form := form + [FormEntry("tags", TextValue(Join(options.tags.value, ',')))];
    }
    if options.transformation.Some? && options.transformation.value != "" {
      form := form + [FormEntry("transformation", TextValue(options.transformation.value))];
    }
  }

  /** The checks and the request of `uploadToCloudinary`, up to sending it. A file that is not an
      image is refused before its size is looked at; an accepted request carries the form above. */
  method PrepareUpload(env: Env, file: File, options: UploadOptions)
    returns (r: Result<UploadRequest, CloudinaryError>)
    ensures !StartsWith(file.mimeType, "image/") ==> r == Err(NotAnImage)
    ensures StartsWith(file.mimeType, "image/") && file.size > MaxFileSize ==> r == Err(FileTooLarge)
    ensures r.Ok? <==> StartsWith(file.mimeType, "image/") && file.size <= MaxFileSize
    ensures r.Ok? ==> r.value.url == UploadUrl(CloudName(env))
    ensures r.Ok? ==> r.value.form == UploadForm(UploadPreset(env), file, options)
  {
    var cloudName := CloudName(env);
    if !StartsWith(file.mimeType, "image/") {
      return Err(NotAnImage);
    }
    var maxSize := 10 * 1024 * 1024;
    if file.size > maxSize {
      return Err(FileTooLarge);
    }
    var form := BuildForm(UploadPreset(env), file, options);
    r := Ok(UploadRequest(UploadUrl(cloudName), form));
  }

  /** An image of exactly 10 MiB is accepted; one byte more is refused. */
  method SizeLimitExample(env: Env) returns (atLimit: Result<UploadRequest, CloudinaryError>,
                                             overLimit: Result<UploadRequest, CloudinaryError>)
    ensures atLimit.Ok? && overLimit == Err(FileTooLarge)
  {
    var options := UploadOptions(None, None, None);
    assert StartsWith("image/png", "image/");
    atLimit := PrepareUpload(env, File("a.png", "image/png", 10 * 1024 * 1024), options);
    overLimit := PrepareUpload(env, File("b.png", "image/png", 10 * 1024 * 1024 + 1), options);
  }

  /** `deleteFromCloudinary`: always refused on the client. */
  function DeleteFromCloudinary(publicId: string): (r: Result<(), CloudinaryError>)
    ensures r.Err? && r.error == DeleteNotAvailable
  {
    Err(DeleteNotAvailable)
  }

  /** The delivery base of a cloud. */
  function DeliveryBase(cloudName: string): string {
    "https://res.cloudinary.com/" + cloudName + "/image/upload"
  }

  /** `getCloudinaryUrl`: the delivery base, then the transformation segment when one is given,
      then the public id. */
  function GetCloudinaryUrl(env: Env, publicId: string, transformations: Option<string>): (r: string)
    ensures StartsWith(r, DeliveryBase(CloudName(env)) + "/")
    ensures |r| >= |publicId| && r[|r| - |publicId|..] == publicId
    ensures transformations.None? || transformations.value == "" ==>
      |r| == |DeliveryBase(CloudName(env))| + 1 + |publicId|
    ensures transformations.Some? && transformations.value != "" ==>
      var n := |DeliveryBase(CloudName(env))| + 1;
      var t := transformations.value;
      |r| == n + |t| + 1 + |publicId| && r[n..n + |t|] == t && r[n + |t|] == '/'
  {
    var baseUrl := DeliveryBase(CloudName(env));
    if transformations.Some? && transformations.value != "" then
      var url := baseUrl + "/" + transformations.value + "/" + publicId;
      assert url == (baseUrl + "/") + (transformations.value + "/" + publicId);
      url
    else
      var url := baseUrl + "/" + publicId;
      assert url[..|baseUrl + "/"|] == baseUrl + "/";
      url
  }

  /** A transformation segment is a path prefix of the public id: the URL with `t` is the URL,
      without one, of `t + "/" + publicId`. An empty segment is the same as none. */
  lemma TransformationIsPathPrefix(env: Env, publicId: string, t: string)
    ensures t != "" ==>
      GetCloudinaryUrl(env, publicId, Some(t)) == GetCloudinaryUrl(env, t + "/" + publicId, None)
    ensures GetCloudinaryUrl(env, publicId, Some("")) == GetCloudinaryUrl(env, publicId, None)
  {
    var b := DeliveryBase(CloudName(env));
    assert b + "/" + t + "/" + publicId == b + "/" + (t + "/" + publicId);
  }

  /** The transformation presets. */
  const LogoPreset := "w_400,h_400,c_fill,g_center"
  const ProductPreset := "w_800,h_600,c_fill,q_auto"
  const ProductThumbPreset := "w_300,h_300,c_fill,q_auto"
  const BannerPreset := "w_1200,h_400,c_fill,q_auto"
  const AvatarPreset := "w_200,h_200,c_fill,g_face"
}
