/**
 * `MultiPart`: the `multipart/form-data` bodies of the uploader and the
 * classification of the upload responses.
 *
 * A body is a sequence of parts, each opened by the delimiter `--boundary`
 * and a line break, and the whole closed by `--boundary--` and a line break
 * (section 5.1.1 of RFC 2046); each part names its form field in a
 * `Content-Disposition: form-data` header (section 4.2 of RFC 7578). The
 * uploader appends the UTF-8 bytes of small strings one after another; the
 * functions named `...Bytes` below follow that order of appends, and the
 * lemmas show that the result is the serialisation of a list of `Part`s.
 *
 * The boundary (a fresh UUID in the source), file reading, the last path
 * component of a file path and the uniform-type lookup behind `mimeType` are
 * inputs.
 */
module Multipart {

  import opened Basics
  import opened Dicts
  import opened Values
  import opened Utf8

  const FieldNameKey := "fieldName"
  const PathUrlsKey := "pathURL"
  /** `MultiPart.fileName`: the image-upload file name is looked up under the empty key. */
  const FileNameKey := ""
  const ImagePng := "image/png"
  const OctetStream := "application/octet-stream"
  const Crlf := "\r\n"
  /** The header line of an image part and the blank line after it, appended as one string. */
  const ImageContentTypeLines := "Content-Type: image/png\r\n\r\n"

  /** One element of `filePathArr`, a `[String: Any]`. */
  type Entry = Dict<AnyValue>

  /** `"\(entry[key] ?? "")"`. */
  function Interpolated(entry: Entry, key: string, describeOther: AnyValue -> string): (s: string)
    ensures Lookup(entry, key).None? ==> s == ""
    ensures Lookup(entry, key).Some? ==> s == Describe(Lookup(entry, key).value, describeOther)
  {
    match Lookup(entry, key)
    case Some(v) => Describe(v, describeOther)
    case None => ""
  }

  // ---------------------------------------------------------------------
  // Parts and their serialisation.

  datatype Part = Part(name: string, filename: Option<string>, contentType: Option<string>, content: Data)

  function Delimiter(boundary: string): string {
    "--" + boundary + Crlf
  }

  function CloseDelimiter(boundary: string): string {
    "--" + boundary + "--" + Crlf
  }

  function DispositionLine(p: Part): string {
    match p.filename
    case Some(f) => "Content-Disposition: form-data; name=\"" + p.name + "\"; filename=\"" + f + "\"\r\n"
    case None => "Content-Disposition: form-data; name=\"" + p.name + "\"\r\n"
  }

  function ContentTypeLine(p: Part): string {
    match p.contentType
    case Some(t) => "Content-Type: " + t + Crlf
    case None => ""
  }

  /** One part: delimiter line, header lines, blank line, content, line break. */
  function PartBytes(boundary: string, p: Part): Data {
    Encode(Delimiter(boundary))
    + Encode(DispositionLine(p))
    + Encode(ContentTypeLine(p))
    + Encode(Crlf)
    + p.content
    + Encode(Crlf)
  }

  function SerializeParts(boundary: string, ps: seq<Part>): Data
  {
    if |ps| == 0 then [] else PartBytes(boundary, ps[0]) + SerializeParts(boundary, ps[1..])
  }

  lemma {:induction false} SerializePartsAppend(boundary: string, a: seq<Part>, b: seq<Part>)
    ensures SerializeParts(boundary, a + b) == SerializeParts(boundary, a) + SerializeParts(boundary, b)
  {
    if |a| == 0 {
      assert a + b == b;
    } else {
      assert (a + b)[1..] == a[1..] + b;
      SerializePartsAppend(boundary, a[1..], b);
    }
  }

  /** A whole body: the parts then the close delimiter; no parts at all (`None`) is the empty body. */
  function Body(boundary: string, parts: Option<seq<Part>>): Data
  {
    match parts
    case Some(ps) => SerializeParts(boundary, ps) + Encode(CloseDelimiter(boundary))
    case None => []
  }

  /** A body built from parts ends with the close delimiter; the empty body stands for an aborted one. */
  lemma BodyShape(boundary: string, parts: Option<seq<Part>>)
    ensures parts.None? ==> Body(boundary, parts) == []
    ensures parts.Some? ==>
      var b := Body(boundary, parts);
      var close := Encode(CloseDelimiter(boundary));
      |b| >= |close| > 0 && b[|b| - |close|..] == close
  {
  }

  // ---------------------------------------------------------------------
  // `createBodyForImageUpload(withBoundary:paths:)`.

  /** The `[Data]` stored under `pathURL`, if that is what is stored there. */
  function DataListUnder(entry: Entry): Option<seq<Data>>
  {
    match Lookup(entry, PathUrlsKey)
    case Some(v) => AsDataList(v)
    case None => None
  }

  /** The appends for one image, in the source's order. */
  function ImageItemBytes(boundary: string, fieldName: string, fileName: string, image: Data): Data
  {
    Encode("--" + boundary + "\r\n")
    + Encode("Content-Disposition: form-data; name=\"" + fieldName + "\"; filename=\"" + fileName + "\"\r\n")
    + Encode(ImageContentTypeLines)
    + image
    + Encode("\r\n")
  }

  function ImageItemsBytes(boundary: string, fieldName: string, fileName: string, images: seq<Data>): Data
  {
    if |images| == 0 then []
    else ImageItemBytes(boundary, fieldName, fileName, images[0]) + ImageItemsBytes(boundary, fieldName, fileName, images[1..])
  }

  /** The appends for every entry, or `None` where the `guard ... else { return Data() }` fires. */
  function ImageEntriesBytes(describeOther: AnyValue -> string, boundary: string, es: seq<Entry>): Option<Data>
  {
    if |es| == 0 then Some([])
    else match DataListUnder(es[0])
      case None => None
      case Some(images) =>
        match ImageEntriesBytes(describeOther, boundary, es[1..])
        case None => None
        case Some(rest) =>
          Some(ImageItemsBytes(boundary, Interpolated(es[0], FieldNameKey, describeOther),
                               Interpolated(es[0], FileNameKey, describeOther), images) + rest)
  }

  /**
   * `createBodyForImageUpload(withBoundary:paths:)`, byte for byte. It is the
   * serialisation of the image parts followed by the close delimiter, or
   * empty (no close delimiter either) when an entry holds no `[Data]`;
   * without entries it is the close delimiter alone.
   */
  function ImageUploadBody(describeOther: AnyValue -> string, boundary: string, paths: Option<seq<Entry>>): (r: Data)
    ensures r == Body(boundary, if paths.None? then Some([]) else ImageParts(describeOther, paths.value))
  {
    match paths
    case None => Encode(CloseDelimiter(boundary))
    case Some(es) =>
      ImageEntriesAreParts(describeOther, boundary, es);
      match ImageEntriesBytes(describeOther, boundary, es)
      case None => []
      case Some(body) => body + Encode(CloseDelimiter(boundary))
  }

  /** The parts of one image entry: one per image, field name and file name from the entry, type PNG. */
  function ImageItemParts(fieldName: string, fileName: string, images: seq<Data>): (ps: seq<Part>)
    ensures |ps| == |images|
    ensures forall i :: 0 <= i < |ps| ==> ps[i] == Part(fieldName, Some(fileName), Some(ImagePng), images[i])
  {
    if |images| == 0 then []
    else
      var rest := ImageItemParts(fieldName, fileName, images[1..]);
      assert forall i :: 1 <= i < |images| ==> images[i] == images[1..][i - 1];
      [Part(fieldName, Some(fileName), Some(ImagePng), images[0])] + rest
  }

  /** The parts of the image-upload body, absent when some entry holds no `[Data]` under `pathURL`. */
  function ImageParts(describeOther: AnyValue -> string, es: seq<Entry>): (r: Option<seq<Part>>)
    ensures r.None? <==> exists i :: 0 <= i < |es| && DataListUnder(es[i]).None?
    ensures r.Some? ==> forall i :: 0 <= i < |r.value| ==> r.value[i].contentType == Some(ImagePng) && r.value[i].filename.Some?
  {
    if |es| == 0 then Some([])
    else
      var rest := ImageParts(describeOther, es[1..]);
      assert forall i :: 1 <= i < |es| ==> es[i] == es[1..][i - 1];
      match DataListUnder(es[0])
      case None => None
      case Some(images) =>
        match rest
        case None => None
        case Some(ps) =>
          Some(ImageItemParts(Interpolated(es[0], FieldNameKey, describeOther),
                              Interpolated(es[0], FileNameKey, describeOther), images) + ps)
  }

  /** Regrouping the appends of a part whose header and blank line were appended as one string. */
  lemma HeaderGrouping(delimiter: Data, disposition: Data, header: Data, crlf: Data, content: Data)
    ensures delimiter + disposition + (header + crlf) + content + crlf
         == delimiter + disposition + header + crlf + content + crlf
  {
  }

  lemma ImageItemIsPart(boundary: string, fieldName: string, fileName: string, image: Data)
    ensures ImageItemBytes(boundary, fieldName, fileName, image)
      == PartBytes(boundary, Part(fieldName, Some(fileName), Some(ImagePng), image))
  {
    var p := Part(fieldName, Some(fileName), Some(ImagePng), image);
    var contentType := "Content-Type: " + ImagePng + Crlf;
    assert contentType + Crlf == ImageContentTypeLines;
    EncodeAppend(contentType, Crlf);
    HeaderGrouping(Encode(Delimiter(boundary)), Encode(DispositionLine(p)), Encode(contentType), Encode(Crlf), image);
  }

  lemma {:induction false} ImageItemsAreParts(boundary: string, fieldName: string, fileName: string, images: seq<Data>)
    ensures ImageItemsBytes(boundary, fieldName, fileName, images)
      == SerializeParts(boundary, ImageItemParts(fieldName, fileName, images))
  {
    if |images| > 0 {
      var first := Part(fieldName, Some(fileName), Some(ImagePng), images[0]);
      var rest := ImageItemParts(fieldName, fileName, images[1..]);
      ImageItemIsPart(boundary, fieldName, fileName, images[0]);
      ImageItemsAreParts(boundary, fieldName, fileName, images[1..]);
      assert ([first] + rest)[1..] == rest;
    }
  }

  lemma {:induction false} ImageEntriesAreParts(describeOther: AnyValue -> string, boundary: string, es: seq<Entry>)
    ensures ImageEntriesBytes(describeOther, boundary, es).Some? == ImageParts(describeOther, es).Some?
    ensures ImageParts(describeOther, es).Some? ==>
      ImageEntriesBytes(describeOther, boundary, es).value == SerializeParts(boundary, ImageParts(describeOther, es).value)
  {
    if |es| > 0 {
      ImageEntriesAreParts(describeOther, boundary, es[1..]);
      var images := DataListUnder(es[0]);
      if images.Some? && ImageParts(describeOther, es[1..]).Some? {
        var f := Interpolated(es[0], FieldNameKey, describeOther);
        var n := Interpolated(es[0], FileNameKey, describeOther);
        var head, tail := ImageItemParts(f, n, images.value), ImageParts(describeOther, es[1..]).value;
        ImageItemsAreParts(boundary, f, n, images.value);
        SerializePartsAppend(boundary, head, tail);
        assert ImageParts(describeOther, es) == Some(head + tail);
        assert ImageEntriesBytes(describeOther, boundary, es)
          == Some(ImageItemsBytes(boundary, f, n, images.value) + ImageEntriesBytes(describeOther, boundary, es[1..]).value);
      }
    }
  }

  /** One entry's parts: the field name and the file name (looked up under the empty key) of that entry. */
  lemma ImagePartsOfEntry(describeOther: AnyValue -> string, e: Entry, images: seq<Data>)
    requires DataListUnder(e) == Some(images)
    ensures ImageParts(describeOther, [e]) ==
      Some(ImageItemParts(Interpolated(e, FieldNameKey, describeOther), Interpolated(e, FileNameKey, describeOther), images))
  {
    assert [e][1..] == [];
    assert ImageItemParts(Interpolated(e, FieldNameKey, describeOther), Interpolated(e, FileNameKey, describeOther), images) + []
      == ImageItemParts(Interpolated(e, FieldNameKey, describeOther), Interpolated(e, FileNameKey, describeOther), images);
  }

  // ---------------------------------------------------------------------
  // `createBody(withBoundary:parameters:paths:)`.

  /** The file-system and type-lookup collaborators of `createBody`. */
  datatype FileEnv = FileEnv(
    read: string -> Option<Data>,
    lastPathComponent: string -> string,
    preferredMimeType: string -> Option<string>,
    describeOther: AnyValue -> string)

  /** `mimeType(forPath:)`: the registered type, `application/octet-stream` when there is none. */
  function MimeType(env: FileEnv, path: string): (t: string)
    ensures env.preferredMimeType(path).None? ==> t == OctetStream
    ensures env.preferredMimeType(path).Some? ==> t == env.preferredMimeType(path).value
  {
    env.preferredMimeType(path).GetOr(OctetStream)
  }

  /** The appends for one parameter value. */
  function ParamValueBytes(boundary: string, name: string, value: string): Data
  {
    Encode("--" + boundary + "\r\n")
    + Encode("Content-Disposition: form-data; name=\"" + name + "\"\r\n\r\n")
    + Encode(value + "\r\n")
  }

  function ArrayParamBytes(describeOther: AnyValue -> string, boundary: string, key: string, arr: seq<AnyValue>): Data
  {
    if |arr| == 0 then []
    else ParamValueBytes(boundary, key + "[]", Describe(arr[0], describeOther))
         + ArrayParamBytes(describeOther, boundary, key, arr[1..])
  }

  /** The appends for the parameters, in the dictionary's order: an array value gives one part per element. */
  function ParamsBytes(describeOther: AnyValue -> string, boundary: string, params: seq<(string, AnyValue)>): Data
  {
    if |params| == 0 then []
    else
      var (key, value) := params[0];
      (match AsArray(value)
       case Some(arr) => ArrayParamBytes(describeOther, boundary, key, arr)
       case None => ParamValueBytes(boundary, key, Describe(value, describeOther)))
      + ParamsBytes(describeOther, boundary, params[1..])
  }

  /** The appends for one file, none when it cannot be read (`catch` prints and moves on). */
  function FileItemBytes(env: FileEnv, boundary: string, fieldName: string, path: string): Data
  {
    match env.read(path)
    case None => []
    case Some(data) =>
      Encode("--" + boundary + "\r\n")
      + Encode("Content-Disposition: form-data; name=\"" + fieldName + "\"; filename=\"" + env.lastPathComponent(path) + "\"\r\n")
      + Encode("Content-Type: " + MimeType(env, path) + "\r\n\r\n")
      + data
      + Encode("\r\n")
  }

  function FileItemsBytes(env: FileEnv, boundary: string, fieldName: string, paths: seq<string>): Data
  {
    if |paths| == 0 then []
    else FileItemBytes(env, boundary, fieldName, paths[0]) + FileItemsBytes(env, boundary, fieldName, paths[1..])
  }

  /** The `[String]` stored under `pathURL`, if that is what is stored there. */
  function PathListUnder(entry: Entry): Option<seq<string>>
  {
    match Lookup(entry, PathUrlsKey)
    case Some(v) => AsStringList(v)
    case None => None
  }

  function FileEntriesBytes(env: FileEnv, boundary: string, es: seq<Entry>): Option<Data>
  {
    if |es| == 0 then Some([])
    else match PathListUnder(es[0])
      case None => None
      case Some(paths) =>
        match FileEntriesBytes(env, boundary, es[1..])
        case None => None
        case Some(rest) =>
          Some(FileItemsBytes(env, boundary, Interpolated(es[0], FieldNameKey, env.describeOther), paths) + rest)
  }

  /**
   * `createBody(withBoundary:parameters:paths:)`, byte for byte. It is the
   * serialisation of the parameters' parts then the files' parts, then the
   * close delimiter; or nothing at all, parameters included, when a file
   * entry holds no `[String]`.
   */
  function CreateBody(env: FileEnv, boundary: string, parameters: Option<Dict<AnyValue>>, paths: Option<seq<Entry>>): (r: Data)
    ensures r == Body(boundary, FormParts(env, parameters, paths))
  {
    var head := match parameters
      case Some(ps) => ParamsBytes(env.describeOther, boundary, ps)
      case None => [];
    CreateBodyGroundWork(env, boundary, parameters, paths);
    match paths
    case None => head + Encode(CloseDelimiter(boundary))
    case Some(es) =>
      match FileEntriesBytes(env, boundary, es)
      case None => []
      case Some(files) => head + files + Encode(CloseDelimiter(boundary))
  }

  /** The parts of one parameter: `key[]` once per element of an array, else `key` once; never a file name or a type. */
  function ParamParts(describeOther: AnyValue -> string, key: string, value: AnyValue): (ps: seq<Part>)
    ensures value.Array? ==> |ps| == |value.items|
    ensures value.Array? ==> forall i :: 0 <= i < |ps| ==>
      ps[i] == Part(key + "[]", None, None, Encode(Describe(value.items[i], describeOther)))
    ensures !value.Array? ==> ps == [Part(key, None, None, Encode(Describe(value, describeOther)))]
  {
    match AsArray(value)
    case Some(arr) =>
      seq(|arr|, i requires 0 <= i < |arr| => Part(key + "[]", None, None, Encode(Describe(arr[i], describeOther))))
    case None => [Part(key, None, None, Encode(Describe(value, describeOther)))]
  }

  function ParamsParts(describeOther: AnyValue -> string, params: seq<(string, AnyValue)>): (ps: seq<Part>)
    ensures forall i :: 0 <= i < |ps| ==> ps[i].filename.None? && ps[i].contentType.None?
  {
    if |params| == 0 then []
    else ParamParts(describeOther, params[0].0, params[0].1) + ParamsParts(describeOther, params[1..])
  }

  /** The part of one readable file: field name from the entry, file name and type from the path. */
  function FileItemParts(env: FileEnv, fieldName: string, paths: seq<string>): (ps: seq<Part>)
    ensures |ps| <= |paths|
    ensures forall i :: 0 <= i < |ps| ==> ps[i].name == fieldName && ps[i].filename.Some? && ps[i].contentType.Some?
  {
    if |paths| == 0 then []
    else
      var rest := FileItemParts(env, fieldName, paths[1..]);
      match env.read(paths[0])
      case None => rest
      case Some(data) =>
        [Part(fieldName, Some(env.lastPathComponent(paths[0])), Some(MimeType(env, paths[0])), data)] + rest
  }

  /** The file parts of `createBody`, absent when some entry holds no `[String]` under `pathURL`. */
  function FileParts(env: FileEnv, es: seq<Entry>): (r: Option<seq<Part>>)
    ensures r.None? <==> exists i :: 0 <= i < |es| && PathListUnder(es[i]).None?
  {
    if |es| == 0 then Some([])
    else
      var rest := FileParts(env, es[1..]);
      assert forall i :: 1 <= i < |es| ==> es[i] == es[1..][i - 1];
      match PathListUnder(es[0])
      case None => None
      case Some(paths) =>
        match rest
        case None => None
        case Some(ps) => Some(FileItemParts(env, Interpolated(es[0], FieldNameKey, env.describeOther), paths) + ps)
  }

  /** The parts of `createBody`: the parameters' parts then the files', or none at all when a file entry is malformed. */
  function FormParts(env: FileEnv, parameters: Option<Dict<AnyValue>>, paths: Option<seq<Entry>>): Option<seq<Part>>
  {
    var head := match parameters
      case Some(ps) => ParamsParts(env.describeOther, ps)
      case None => [];
    match paths
    case None => Some(head)
    case Some(es) =>
      match FileParts(env, es)
      case None => None
      case Some(files) => Some(head + files)
  }

  lemma BlankLineSplit(name: string)
    ensures Encode("Content-Disposition: form-data; name=\"" + name + "\"\r\n\r\n")
      == Encode("Content-Disposition: form-data; name=\"" + name + "\"\r\n") + Encode(Crlf)
  {
    var disposition := "Content-Disposition: form-data; name=\"" + name + "\"\r\n";
    assert disposition + Crlf == "Content-Disposition: form-data; name=\"" + name + "\"\r\n\r\n";
    EncodeAppend(disposition, Crlf);
  }

  /** A part with neither file name nor type has no header line after its disposition. */
  lemma PlainPartBytes(boundary: string, p: Part)
    requires p.filename.None? && p.contentType.None?
    ensures PartBytes(boundary, p)
      == Encode(Delimiter(boundary)) + Encode(DispositionLine(p)) + Encode(Crlf) + p.content + Encode(Crlf)
  {
    assert Encode(ContentTypeLine(p)) == [];
  }

  /** Regrouping the appends of a parameter, whose blank line and value line end two appended strings. */
  lemma ParamGrouping(delimiter: Data, disposition: Data, crlf: Data, value: Data)
    ensures delimiter + (disposition + crlf) + (value + crlf) == delimiter + disposition + crlf + value + crlf
  {
  }

  lemma ParamValueIsPart(boundary: string, name: string, value: string)
    ensures ParamValueBytes(boundary, name, value) == PartBytes(boundary, Part(name, None, None, Encode(value)))
  {
    var p := Part(name, None, None, Encode(value));
    BlankLineSplit(name);
    EncodeAppend(value, Crlf);
    PlainPartBytes(boundary, p);
    ParamGrouping(Encode(Delimiter(boundary)), Encode(DispositionLine(p)), Encode(Crlf), Encode(value));
  }

  lemma {:induction false} ArrayParamIsParts(describeOther: AnyValue -> string, boundary: string, key: string, arr: seq<AnyValue>)
    ensures ArrayParamBytes(describeOther, boundary, key, arr) == SerializeParts(boundary, ParamParts(describeOther, key, Array(arr)))
  {
    if |arr| > 0 {
      ParamValueIsPart(boundary, key + "[]", Describe(arr[0], describeOther));
      ArrayParamIsParts(describeOther, boundary, key, arr[1..]);
      assert ParamParts(describeOther, key, Array(arr))[1..] == ParamParts(describeOther, key, Array(arr[1..]));
    }
  }

  lemma {:induction false} ParamsAreParts(describeOther: AnyValue -> string, boundary: string, params: seq<(string, AnyValue)>)
    ensures ParamsBytes(describeOther, boundary, params) == SerializeParts(boundary, ParamsParts(describeOther, params))
  {
    if |params| > 0 {
      var (key, value) := params[0];
      ParamsAreParts(describeOther, boundary, params[1..]);
      if value.Array? {
        ArrayParamIsParts(describeOther, boundary, key, value.items);
      } else {
        ParamValueIsPart(boundary, key, Describe(value, describeOther));
      }
      SerializePartsAppend(boundary, ParamParts(describeOther, key, value), ParamsParts(describeOther, params[1..]));
    }
  }

  lemma FileItemIsPart(env: FileEnv, boundary: string, fieldName: string, path: string, data: Data)
    requires env.read(path) == Some(data)
    ensures FileItemBytes(env, boundary, fieldName, path)
      == PartBytes(boundary, Part(fieldName, Some(env.lastPathComponent(path)), Some(MimeType(env, path)), data))
  {
    var p := Part(fieldName, Some(env.lastPathComponent(path)), Some(MimeType(env, path)), data);
    var contentType := "Content-Type: " + MimeType(env, path) + Crlf;
    assert contentType + Crlf == "Content-Type: " + MimeType(env, path) + "\r\n\r\n";
    EncodeAppend(contentType, Crlf);
    HeaderGrouping(Encode(Delimiter(boundary)), Encode(DispositionLine(p)), Encode(contentType), Encode(Crlf), data);
  }

  lemma {:induction false} FileItemsAreParts(env: FileEnv, boundary: string, fieldName: string, paths: seq<string>)
    ensures FileItemsBytes(env, boundary, fieldName, paths) == SerializeParts(boundary, FileItemParts(env, fieldName, paths))
  {
    if |paths| > 0 {
      FileItemsAreParts(env, boundary, fieldName, paths[1..]);
      var rest := FileItemParts(env, fieldName, paths[1..]);
      match env.read(paths[0])
      case None =>
      case Some(data) =>
        var p := Part(fieldName, Some(env.lastPathComponent(paths[0])), Some(MimeType(env, paths[0])), data);
        FileItemIsPart(env, boundary, fieldName, paths[0], data);
        assert ([p] + rest)[1..] == rest;
    }
  }

  lemma {:induction false} FileEntriesAreParts(env: FileEnv, boundary: string, es: seq<Entry>)
    ensures FileEntriesBytes(env, boundary, es).Some? == FileParts(env, es).Some?
    ensures FileParts(env, es).Some? ==>
      FileEntriesBytes(env, boundary, es).value == SerializeParts(boundary, FileParts(env, es).value)
  {
    if |es| > 0 {
      FileEntriesAreParts(env, boundary, es[1..]);
      var paths := PathListUnder(es[0]);
      if paths.Some? && FileParts(env, es[1..]).Some? {
        var f := Interpolated(es[0], FieldNameKey, env.describeOther);
        var head, tail := FileItemParts(env, f, paths.value), FileParts(env, es[1..]).value;
        FileItemsAreParts(env, boundary, f, paths.value);
        SerializePartsAppend(boundary, head, tail);
        assert FileParts(env, es) == Some(head + tail);
        assert FileEntriesBytes(env, boundary, es)
          == Some(FileItemsBytes(env, boundary, f, paths.value) + FileEntriesBytes(env, boundary, es[1..]).value);
      }
    }
  }

  /** The byte-level facts `CreateBody` rests on: each loop's bytes serialise its parts. */
  lemma CreateBodyGroundWork(env: FileEnv, boundary: string, parameters: Option<Dict<AnyValue>>, paths: Option<seq<Entry>>)
    ensures parameters.Some? ==>
      ParamsBytes(env.describeOther, boundary, parameters.value) == SerializeParts(boundary, ParamsParts(env.describeOther, parameters.value))
    ensures paths.Some? ==> FileEntriesBytes(env, boundary, paths.value).Some? == FileParts(env, paths.value).Some?
    ensures paths.Some? && FileParts(env, paths.value).Some? ==>
      var head := if parameters.Some? then ParamsParts(env.describeOther, parameters.value) else [];
      SerializeParts(boundary, head) + FileEntriesBytes(env, boundary, paths.value).value
        == SerializeParts(boundary, head + FileParts(env, paths.value).value)
  {
    var head := if parameters.Some? then ParamsParts(env.describeOther, parameters.value) else [];
    if parameters.Some? {
      ParamsAreParts(env.describeOther, boundary, parameters.value);
    }
    if paths.Some? {
      FileEntriesAreParts(env, boundary, paths.value);
      if FileParts(env, paths.value).Some? {
        SerializePartsAppend(boundary, head, FileParts(env, paths.value).value);
      }
    }
  }

  lemma {:induction false} FileItemPartsAppend(env: FileEnv, fieldName: string, a: seq<string>, b: seq<string>)
    ensures FileItemParts(env, fieldName, a + b) == FileItemParts(env, fieldName, a) + FileItemParts(env, fieldName, b)
  {
    if |a| == 0 {
      assert a + b == b;
    } else {
      assert (a + b)[1..] == a[1..] + b;
      FileItemPartsAppend(env, fieldName, a[1..], b);
    }
  }

  /** A file that cannot be read is skipped: the parts are those of the list without it. */
  lemma UnreadableFileSkipped(env: FileEnv, fieldName: string, paths: seq<string>, i: nat)
    requires i < |paths| && env.read(paths[i]).None?
    ensures FileItemParts(env, fieldName, paths) == FileItemParts(env, fieldName, paths[..i] + paths[i + 1..])
  {
    assert paths == paths[..i] + ([paths[i]] + paths[i + 1..]);
    FileItemPartsAppend(env, fieldName, paths[..i], [paths[i]] + paths[i + 1..]);
    FileItemPartsAppend(env, fieldName, paths[..i], paths[i + 1..]);
    assert FileItemParts(env, fieldName, [paths[i]] + paths[i + 1..]) == FileItemParts(env, fieldName, paths[i + 1..]) by {
      assert ([paths[i]] + paths[i + 1..])[1..] == paths[i + 1..];
    }
  }

  /** Each readable file gives exactly one part. */
  lemma {:induction false} ReadableFilesGiveOnePartEach(env: FileEnv, fieldName: string, paths: seq<string>)
    requires forall i :: 0 <= i < |paths| ==> env.read(paths[i]).Some?
    ensures |FileItemParts(env, fieldName, paths)| == |paths|
  {
    if |paths| > 0 {
      ReadableFilesGiveOnePartEach(env, fieldName, paths[1..]);
    }
  }

  /** One entry without the expected list under `pathURL` empties either body, parameters and close delimiter included. */
  lemma MalformedEntryEmptiesBody(env: FileEnv, describeOther: AnyValue -> string, boundary: string,
                                  parameters: Option<Dict<AnyValue>>, es: seq<Entry>, i: nat)
    requires i < |es|
    ensures PathListUnder(es[i]).None? ==> CreateBody(env, boundary, parameters, Some(es)) == []
    ensures DataListUnder(es[i]).None? ==> ImageUploadBody(describeOther, boundary, Some(es)) == []
  {
  }

  /** With every entry well formed, the `createBody` body ends with the close delimiter, unreadable files or not. */
  lemma CreateBodyEndsWithCloseDelimiter(env: FileEnv, boundary: string, parameters: Option<Dict<AnyValue>>, paths: Option<seq<Entry>>)
    requires paths.Some? ==> forall i :: 0 <= i < |paths.value| ==> PathListUnder(paths.value[i]).Some?
    ensures var b, close := CreateBody(env, boundary, parameters, paths), Encode(CloseDelimiter(boundary));
      |b| >= |close| && b[|b| - |close|..] == close
  {
    BodyShape(boundary, FormParts(env, parameters, paths));
  }

  /** With every entry well formed, the image-upload body ends with the close delimiter. */
  lemma ImageUploadBodyEndsWithCloseDelimiter(describeOther: AnyValue -> string, boundary: string, paths: Option<seq<Entry>>)
    requires paths.Some? ==> forall i :: 0 <= i < |paths.value| ==> DataListUnder(paths.value[i]).Some?
    ensures var b, close := ImageUploadBody(describeOther, boundary, paths), Encode(CloseDelimiter(boundary));
      |b| >= |close| && b[|b| - |close|..] == close
  {
    BodyShape(boundary, if paths.None? then Some([]) else ImageParts(describeOther, paths.value));
  }

  // ---------------------------------------------------------------------
  // Upload responses.

  /** An opaque `Error`. */
  datatype UploadError = UploadError(code: int)

  /** `GeneralResponseModel`. */
  datatype GeneralResponse = GeneralResponse(message: Option<string>, status: Option<int>)

  /** `MultiPartResult`. */
  datatype MultiPartResult<V> = MpSuccess(value: V) | MpFailure(response: GeneralResponse) | MpError(error: Option<UploadError>)

  /** What `JSONSerialization.jsonObject(with:)` returns, seen through `as? [String: Any]`. */
  datatype JsonTop = JsonObject(object: Dict<AnyValue>) | JsonNotObject

  /**
   * The completion arguments of `callPostWebService`: the error when the
   * transport failed; the dictionary when the body (an absent body read as
   * empty) parses, fragments allowed, to a JSON object; both absent otherwise.
   */
  function PostWebServiceOutcome(error: Option<UploadError>, data: Option<Data>,
                                 parseFragments: Data -> Result<JsonTop, UploadError>): (r: (Option<Dict<AnyValue>>, Option<UploadError>))
    ensures error.Some? ==> r == (None, error)
    ensures r.0.Some? <==> error.None? && parseFragments(data.GetOr([])).Success? && parseFragments(data.GetOr([])).value.JsonObject?
    ensures r.0.Some? ==> parseFragments(data.GetOr([])) == Success(JsonObject(r.0.value))
    ensures error.None? ==> r.1 == None
  {
    if error.Some? then (None, error)
    else match parseFragments(data.GetOr([]))
      case Success(JsonObject(d)) => (Some(d), None)
      case _ => (None, None)
  }

  /**
   * The completion of `callPostWSWithModel`, or `None` when it is never
   * called (no error and no data). `parse` is the strict JSON parse, whose
   * throw is caught like the decoders'.
   */
  function PostWithModelOutcome<T>(error: Option<UploadError>, data: Option<Data>,
                                   parse: Data -> Result<JsonTop, UploadError>,
                                   decodeGeneral: Data -> Result<GeneralResponse, UploadError>,
                                   decodeModel: Data -> Result<T, UploadError>): (r: Option<MultiPartResult<T>>)
    ensures r.None? <==> error.None? && data.None?
    ensures error.Some? ==> r == Some(MpError(error))
    ensures r.Some? && r.value.MpSuccess? <==>
      && error.None? && data.Some? && parse(data.value).Success?
      && decodeGeneral(data.value).Success? && decodeGeneral(data.value).value.status.GetOr(0) == 200
      && decodeModel(data.value).Success?
    ensures r.Some? && r.value.MpSuccess? ==> r.value.value == decodeModel(data.value).value
    ensures r.Some? && r.value.MpFailure? <==>
      && error.None? && data.Some? && parse(data.value).Success?
      && decodeGeneral(data.value).Success? && decodeGeneral(data.value).value.status.GetOr(0) != 200
    ensures r.Some? && r.value.MpFailure? ==> r.value.response == decodeGeneral(data.value).value
    // the error of the first stage that throws is the one passed on
    ensures error.None? && data.Some? && parse(data.value).Failure? ==>
      r == Some(MpError(Some(parse(data.value).error)))
    ensures error.None? && data.Some? && parse(data.value).Success? && decodeGeneral(data.value).Failure? ==>
      r == Some(MpError(Some(decodeGeneral(data.value).error)))
    ensures (&& error.None? && data.Some? && parse(data.value).Success? && decodeGeneral(data.value).Success?
             && decodeGeneral(data.value).value.status.GetOr(0) == 200 && decodeModel(data.value).Failure?) ==>
      r == Some(MpError(Some(decodeModel(data.value).error)))
  {
    if error.Some? then Some(MpError(error))
    else match data
      case None => None
      case Some(d) =>
        match parse(d)
        case Failure(e) => Some(MpError(Some(e)))
        case Success(_) =>
          match decodeGeneral(d)
          case Failure(e) => Some(MpError(Some(e)))
          case Success(general) =>
            if general.status.GetOr(0) == 200 then
              match decodeModel(d)
              case Failure(e) => Some(MpError(Some(e)))
              case Success(m) => Some(MpSuccess(m))
            else Some(MpFailure(general))
  }

  /**
   * The completion of `uploadImageWithModel`: success with no value whenever
   * the body is valid JSON, whatever it holds; `None` when never called.
   */
  function UploadImageOutcome<T>(error: Option<UploadError>, data: Option<Data>,
                                 parse: Data -> Result<JsonTop, UploadError>): (r: Option<MultiPartResult<Option<T>>>)
    ensures r.None? <==> error.None? && data.None?
    ensures error.Some? ==> r == Some(MpError(error))
    ensures r == Some(MpSuccess(None)) <==> error.None? && data.Some? && parse(data.value).Success?
    ensures r.Some? ==> !r.value.MpFailure? && (r.value.MpSuccess? ==> r.value.value.None?)
    // a parse that throws passes its error on
    ensures error.None? && data.Some? && parse(data.value).Failure? ==>
      r == Some(MpError(Some(parse(data.value).error)))
  {
    if error.Some? then Some(MpError(error))
    else match data
      case None => None
      case Some(d) =>
        match parse(d)
        case Failure(e) => Some(MpError(Some(e)))
        case Success(_) => Some(MpSuccess(None))
  }
}
