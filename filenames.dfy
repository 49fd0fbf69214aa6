/**
 * File names and paths: `sanitize_filename`, POSIX `os.path.splitext`, the
 * file name that `download_attachment_by_id` derives for an attachment, and
 * the endpoint that `download_raw` assembles.
 */
module Filenames {
  import opened PyValues
  import opened PyText

  // ---------------- sanitize_filename ----------------

  /** The characters `sanitize_filename` replaces: `<>:"/\|?*` and U+0000..U+001F. */
  predicate IsReserved(c: char)
  {
    c == '<' || c == '>' || c == ':' || c == '"' || c == '/' || c == '\\'
    || c == '|' || c == '?' || c == '*' || c < ' '
  }

  /** The characters removed by `rstrip('. ')`. */
  predicate IsDotOrSpace(c: char)
  {
    c == '.' || c == ' '
  }

  /** `s.rstrip('. ')`: drop trailing dots and spaces. */
  function RStripDotsSpaces(s: string): (r: string)
    ensures |r| <= |s| && r == s[..|r|]
    ensures forall i :: 0 <= i < |r| ==> r[i] == s[i]
    ensures r == [] || !IsDotOrSpace(r[|r| - 1])
    ensures forall i :: |r| <= i < |s| ==> IsDotOrSpace(s[i])
  {
    if s != [] && IsDotOrSpace(s[|s| - 1]) then RStripDotsSpaces(s[..|s| - 1]) else s
  }

  /** Every reserved character replaced by `_`. */
  function ReplaceReserved(s: string): (r: string)
    ensures |r| == |s|
    ensures forall i :: 0 <= i < |s| ==> r[i] == if IsReserved(s[i]) then '_' else s[i]
  {
    seq(|s|, i requires 0 <= i < |s| => if IsReserved(s[i]) then '_' else s[i])
  }

  /** Stripping whitespace brings no reserved character back. */
  lemma StripKeepsUnreserved(s: string)
    requires forall i :: 0 <= i < |s| ==> !IsReserved(s[i])
    ensures forall i :: 0 <= i < |Strip(s)| ==> !IsReserved(Strip(s)[i])
  {
    var r := Strip(s);
    var k :| SliceAt(s, r, k);
    forall i | 0 <= i < |r| ensures !IsReserved(r[i]) {
      assert r[i] == s[k + i];
    }
  }

  /** The name after replacement and `strip()`. */
  function Stripped(name: string): (r: string)
    ensures forall i :: 0 <= i < |r| ==> !IsReserved(r[i])
    ensures r == [] || !IsSpace(r[0])
  {
    var replaced := ReplaceReserved(name);
    StripKeepsUnreserved(replaced);
    Strip(replaced)
  }

  /** The name after replacement, `strip()` and `rstrip('. ')`, before the length cut. */
  function Trimmed(name: string): (r: string)
    ensures forall i :: 0 <= i < |r| ==> !IsReserved(r[i])
    ensures r == [] || (!IsSpace(r[0]) && !IsDotOrSpace(r[|r| - 1]))
  {
    var stripped := Stripped(name);
    RStripDotsSpaces(stripped)
  }

  const MaxNameLength: nat := 250

  /** `sanitize_filename(name)`. */
  function SanitizeFilename(name: string): (r: string)
    ensures forall i :: 0 <= i < |r| ==> !IsReserved(r[i])
    ensures |r| <= MaxNameLength
    ensures r <= Trimmed(name)
    ensures |r| == MaxNameLength || r == Trimmed(name)
    ensures |Trimmed(name)| <= MaxNameLength ==> r == [] || !IsDotOrSpace(r[|r| - 1])
    ensures r == [] || !IsSpace(r[0])
  {
    var t := Trimmed(name);
    if |t| <= MaxNameLength then t else t[..MaxNameLength]
  }

  /**
   * A name already free of reserved characters and of surrounding
   * whitespace, and not ending in a dot or space, is kept as it is.
   */
  lemma CleanNameKept(name: string)
    requires forall i :: 0 <= i < |name| ==> !IsReserved(name[i])
    requires name == [] || (!IsSpace(name[0]) && !IsSpace(name[|name| - 1]) && !IsDotOrSpace(name[|name| - 1]))
    ensures ReplaceReserved(name) == name
    ensures Trimmed(name) == name
  {
    assert ReplaceReserved(name) == name;
    StripUnpadded(name);
  }

  /** The reserved characters of a title become underscores. */
  lemma SanitizeReplacesReserved()
    ensures SanitizeFilename("a/b:c*d") == "a_b_c_d"
  {
    var r := ReplaceReserved("a/b:c*d");
    assert r == "a_b_c_d" by {
      assert r[1] == '_' && r[3] == '_' && r[5] == '_';
    }
    CleanNameKept("a_b_c_d");
  }

  /**
   * The cut to 250 characters happens after trimming, so it can leave a
   * trailing space: 249 letters, a space and one more letter keep their
   * space at the end.
   */
  lemma SanitizeCutCanEndInSpace()
    ensures var name := seq(249, _ => 'a') + " b";
            var r := SanitizeFilename(name);
            |r| == MaxNameLength && r[|r| - 1] == ' '
  {
    var name := seq(249, _ => 'a') + " b";
    forall i | 0 <= i < |name| ensures !IsReserved(name[i]) {
      assert name[i] == 'a' || name[i] == ' ' || name[i] == 'b';
    }
    assert name[0] == 'a' && name[|name| - 1] == 'b';
    CleanNameKept(name);
    assert SanitizeFilename(name) == name[..MaxNameLength];
  }

  // ---------------- os.path.splitext ----------------

  /** Index of the last `c` in `s`, or -1. */
  function LastIndexOf(s: string, c: char): (r: int)
    ensures -1 <= r < |s|
    ensures r >= 0 ==> s[r] == c
    ensures forall i :: r < i < |s| ==> s[i] != c
  {
    if s == [] then -1
    else if s[|s| - 1] == c then |s| - 1
    else LastIndexOf(s[..|s| - 1], c)
  }

  /** An extension as `splitext` returns it: a dot followed by neither dots nor slashes. */
  predicate IsExtension(ext: string)
  {
    |ext| >= 1 && ext[0] == '.' && forall i :: 0 < i < |ext| ==> ext[i] != '.' && ext[i] != '/'
  }

  /**
   * POSIX `os.path.splitext(p)`: split at the last dot of the last path
   * component, unless everything before that dot in the component is dots
   * (`.bashrc` has no extension).
   */
  function SplitExt(p: string): (r: (string, string))
    ensures r.0 + r.1 == p
    ensures r.1 == [] || IsExtension(r.1)
    ensures r.1 != [] ==> exists k :: LastIndexOf(p, '/') < k < |r.0| && r.0[k] != '.'
    ensures r.1 == [] ==>
      forall j, k :: LastIndexOf(p, '/') < k < j < |p| && p[j] == '.' ==> p[k] == '.'
  {
    var sep := LastIndexOf(p, '/');
    var dot := LastIndexOf(p, '.');
    if dot > sep && exists k :: sep < k < dot && p[k] != '.' then
      (p[..dot], p[dot..])
    else
      (p, "")
  }

  /** Appending an extension to a slash-free stem that is not all dots splits back apart. */
  lemma SplitExtJoin(stem: string, ext: string)
    requires forall i :: 0 <= i < |stem| ==> stem[i] != '/'
    requires exists k :: 0 <= k < |stem| && stem[k] != '.'
    requires IsExtension(ext)
    ensures SplitExt(stem + ext) == (stem, ext)
  {
    var p := stem + ext;
    var sep := LastIndexOf(p, '/');
    var dot := LastIndexOf(p, '.');
    assert sep == -1;
    assert p[|stem|] == '.';
    assert dot == |stem|;
    var k :| 0 <= k < |stem| && stem[k] != '.';
    assert p[k] == stem[k];
    assert p[..dot] == stem && p[dot..] == ext;
  }

  // ---------------- download_attachment_by_id: the file name ----------------

  /** `att.get("id") == attachment_id`. */
  predicate HasAttachmentId(att: Json, attachmentId: string)
    requires att.JObj?
  {
    Get(att.fields, "id", JNull) == JStr(attachmentId)
  }

  /**
   * `next((att for att in attachments if att.get("id") == attachment_id), None)`:
   * the first dict whose id matches; a non-dict met before it raises
   * AttributeError.
   */
  function FindAttachment(atts: seq<Json>, attachmentId: string): (r: Result<Option<map<string, Json>>>)
    ensures r.Ok? && r.value.Some? ==>
      exists i :: 0 <= i < |atts| && atts[i] == JObj(r.value.value) && HasAttachmentId(atts[i], attachmentId)
        && forall j :: 0 <= j < i ==> atts[j].JObj? && !HasAttachmentId(atts[j], attachmentId)
    ensures r == Ok(None) <==>
      forall i :: 0 <= i < |atts| ==> atts[i].JObj? && !HasAttachmentId(atts[i], attachmentId)
    ensures r.Err? ==> r.error == AttributeError
    ensures r.Err? ==>
      exists i :: 0 <= i < |atts| && !atts[i].JObj?
        && forall j :: 0 <= j < i ==> atts[j].JObj? && !HasAttachmentId(atts[j], attachmentId)
  {
    if atts == [] then Ok(None)
    else if !atts[0].JObj? then Err(AttributeError)
    else if HasAttachmentId(atts[0], attachmentId) then Ok(Some(atts[0].fields))
    else
      var r := FindAttachment(atts[1..], attachmentId);
      assert forall i :: 1 <= i < |atts| ==> atts[i] == atts[1..][i - 1];
      r
  }

  /**
   * The stem of the saved file: the document title (the attachment id when
   * there is none) without its extension, sanitised. `document.get` on a
   * non-dict raises AttributeError; `splitext` of a non-string raises TypeError.
   */
  function TitleStem(document: Json, attachmentId: string): (r: Result<string>)
    ensures r.Ok? <==> document.JObj? && Get(document.fields, "title", JStr(attachmentId)).JStr?
    ensures r.Ok? ==> forall i :: 0 <= i < |r.value| ==> !IsReserved(r.value[i])
    ensures r.Ok? ==> r.value == SanitizeFilename(SplitExt(Get(document.fields, "title", JStr(attachmentId)).s).0)
    ensures r.Err? ==> r.error == (if document.JObj? then TypeError else AttributeError)
  {
    if !document.JObj? then Err(AttributeError)
    else
      var raw := Get(document.fields, "title", JStr(attachmentId));
      if !raw.JStr? then Err(TypeError) else Ok(SanitizeFilename(SplitExt(raw.s).0))
  }

  /** Photos and generic attachments keep their stored extension; other types are saved as PDF. */
  predicate KeepsStoredExtension(attachmentType: Json)
  {
    attachmentType == JStr("photo") || attachmentType == JStr("attachment")
  }

  /**
   * The extension of the saved file: for a photo or attachment the
   * extension of `document.path` when that key exists, else `.png`; `.pdf`
   * for every other type.
   */
  function SavedExtension(attachmentType: Json, document: map<string, Json>): (r: Result<string>)
    ensures r.Ok? ==> r.value == [] || IsExtension(r.value)
    ensures !KeepsStoredExtension(attachmentType) ==> r == Ok(".pdf")
    ensures KeepsStoredExtension(attachmentType) && "path" !in document ==> r == Ok(".png")
    ensures KeepsStoredExtension(attachmentType) && "path" in document && document["path"].JStr? ==>
      r.Ok? && document["path"].s == SplitExt(document["path"].s).0 + r.value
    ensures r.Err? <==> KeepsStoredExtension(attachmentType) && "path" in document && !document["path"].JStr?
  {
    if KeepsStoredExtension(attachmentType) then
      if "path" in document then
        var path := Get(document, "path", JStr(""));
        if path.JStr? then Ok(SplitExt(path.s).1) else Err(TypeError)
      else Ok(".png")
    else Ok(".pdf")
  }

  /** The file name `download_attachment_by_id` saves an attachment under. */
  function DownloadFileName(attachment: map<string, Json>, attachmentId: string): (r: Result<string>)
    ensures r.Ok? ==>
      var document := Get(attachment, "document", JObj(map[]));
      var attachmentType := Get(attachment, "type", JStr("unknown"));
      document.JObj? && TitleStem(document, attachmentId).Ok?
        && SavedExtension(attachmentType, document.fields).Ok?
        && r.value == TitleStem(document, attachmentId).value + SavedExtension(attachmentType, document.fields).value
    ensures
      var document := Get(attachment, "document", JObj(map[]));
      var attachmentType := Get(attachment, "type", JStr("unknown"));
      && (TitleStem(document, attachmentId).Ok? && SavedExtension(attachmentType, document.fields).Ok? ==> r.Ok?)
      && (TitleStem(document, attachmentId).Err? ==> r == Err(TitleStem(document, attachmentId).error))
      && (TitleStem(document, attachmentId).Ok? && SavedExtension(attachmentType, document.fields).Err? ==>
            r == Err(SavedExtension(attachmentType, document.fields).error))
  {
    var attachmentType := Get(attachment, "type", JStr("unknown"));
    var document := Get(attachment, "document", JObj(map[]));
    match TitleStem(document, attachmentId)
    case Err(e) => Err(e)
    case Ok(stem) =>
      match SavedExtension(attachmentType, document.fields)
      case Err(e) => Err(e)
      case Ok(ext) => Ok(stem + ext)
  }

  /**
   * The saved name splits back into the sanitised stem and the chosen
   * extension, provided the stem is not empty or all dots and an extension
   * was chosen.
   */
  lemma DownloadFileNameSplitsBack(attachment: map<string, Json>, attachmentId: string)
    requires DownloadFileName(attachment, attachmentId).Ok?
    ensures
      var document := Get(attachment, "document", JObj(map[]));
      var stem := TitleStem(document, attachmentId).value;
      var ext := SavedExtension(Get(attachment, "type", JStr("unknown")), document.fields).value;
      (exists k :: 0 <= k < |stem| && stem[k] != '.') && ext != [] ==>
        SplitExt(DownloadFileName(attachment, attachmentId).value) == (stem, ext)
  {
    var document := Get(attachment, "document", JObj(map[]));
    var stem := TitleStem(document, attachmentId).value;
    var ext := SavedExtension(Get(attachment, "type", JStr("unknown")), document.fields).value;
    if (exists k :: 0 <= k < |stem| && stem[k] != '.') && ext != [] {
      assert forall i :: 0 <= i < |stem| ==> stem[i] != '/' by {
        assert forall i :: 0 <= i < |stem| ==> !IsReserved(stem[i]);
      }
      SplitExtJoin(stem, ext);
    }
  }

  // ---------------- download_raw: endpoint ----------------

  /** An optional id that is present and non-empty, i.e. truthy. */
  predicate Present(id: Option<string>)
  {
    id.Some? && id.value != ""
  }

  /** `"/" + id` for a truthy id, nothing otherwise. */
  function Segment(id: Option<string>): (r: string)
    ensures Present(id) ==> r == "/" + id.value
    ensures !Present(id) ==> r == ""
  {
    if Present(id) then "/" + id.value else ""
  }

  /** The endpoint `download_raw` requests: the resource path, then one segment per truthy id. */
  function DownloadRawEndpoint(resourceType: string, itemId: Option<string>, subresourceId: Option<string>): (r: string)
    ensures |r| == |resourceType| + |Segment(itemId)| + |Segment(subresourceId)|
    ensures r[..|resourceType|] == resourceType
    ensures !Present(itemId) && !Present(subresourceId) ==> r == resourceType
    ensures Present(itemId) ==> r[|resourceType|..|resourceType| + 1 + |itemId.value|] == "/" + itemId.value
    ensures Present(subresourceId) ==> r[|r| - 1 - |subresourceId.value|..] == "/" + subresourceId.value
  {
    var endpoint := resourceType + Segment(itemId);
    endpoint + Segment(subresourceId)
  }
}
