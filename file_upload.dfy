/**
 * The file picker used for logos and pitch decks. A chosen or dropped file is checked against
 * the `accept` list and the size limit. An accepted file is handed once to the owner's
 * `onFileSelect` and, when it is an image, read for a preview. A refused file raises an alert
 * and goes nowhere.
 */
module FileUpload {
  import opened Wrappers
  import opened JsText
  import opened Types

  /** `accept.split(',').map(t => t.trim())`. */
  function AcceptedTypes(accept: string): (r: seq<string>)
    ensures |r| == |Split(accept, ',')| && |r| >= 1
    ensures forall i :: 0 <= i < |r| ==> ',' !in r[i]
  {
    var parts := Split(accept, ',');
    var r := seq(|parts|, i requires 0 <= i < |parts| => Trim(parts[i]));
    assert forall i :: 0 <= i < |r| ==> ',' !in r[i] by {
      forall i | 0 <= i < |r| ensures ',' !in r[i] {
        TrimKeeps(parts[i], ',');
      }
    }
    r
  }

  /** Trimming only removes characters, so a character absent before is absent after. */
  lemma TrimKeeps(s: string, c: char)
    requires c !in s
    ensures c !in Trim(s)
  {
  }

  /** `.${file.name.split('.').pop()?.toLowerCase()}`: a dot and the lower-cased text after the last dot. */
  function Extension(name: string): (r: string)
    ensures |r| >= 1 && r[0] == '.'
  {
    "." + ToLower(LastPiece(name, '.'))
  }

  /** A name `a.b`, with no dot in `b`, has the extension `.b` in lower case. */
  lemma ExtensionOfDottedName(a: string, b: string)
    requires '.' !in b
    ensures Extension(a + "." + b) == "." + ToLower(b)
  {
    assert a + "." + b == a + ['.'] + b;
    LastPieceAfterSeparator(a, b, '.');
  }

  /** A name without a dot has the whole name, lower-cased, as its extension. */
  lemma ExtensionOfUndottedName(name: string)
    requires '.' !in name
    ensures Extension(name) == "." + ToLower(name)
  {
    SplitWithoutSeparator(name, '.');
  }

  /**
   * One `accept` entry against a file: an entry starting with `.` asks for that exact
   * extension; any other entry asks for a MIME type that starts with the entry with its first
   * `*` removed.
   */
  predicate EntryMatches(entry: string, name: string, mimeType: string) {
    if StartsWith(entry, ".") then Extension(name) == entry
    else StartsWith(mimeType, RemoveFirst(entry, '*'))
  }

  /** `acceptedTypes.some(...)`. */
  predicate TypeAccepted(accept: string, f: FileRef) {
    exists i :: 0 <= i < |AcceptedTypes(accept)| && EntryMatches(AcceptedTypes(accept)[i], f.name, f.mimeType)
  }

  /** A file passes iff its type is accepted and its size is at most the limit. */
  predicate Accepts(accept: string, maxSize: int, f: FileRef) {
    TypeAccepted(accept, f) && f.size <= maxSize
  }

  /** The limit itself is allowed; one byte over is not. */
  lemma SizeLimitInclusive(accept: string, f: FileRef)
    requires TypeAccepted(accept, f)
    ensures Accepts(accept, f.size, f)
    ensures !Accepts(accept, f.size - 1, f)
  {
  }

  /** An extension entry matches whatever the file claims its MIME type is, and only on its extension. */
  lemma ExtensionEntryIgnoresMime(entry: string, name: string, m1: string, m2: string)
    requires StartsWith(entry, ".")
    ensures EntryMatches(entry, name, m1) <==> EntryMatches(entry, name, m2)
    ensures EntryMatches(entry, name, m1) <==> Extension(name) == entry
  {
  }

  /** The entry `image/` plus a star accepts every `image/…` type and nothing else. */
  lemma WildcardEntry(name: string, mimeType: string)
    ensures EntryMatches("image/*", name, mimeType) <==> StartsWith(mimeType, "image/")
  {
    assert !StartsWith("image/*", ".") by { assert "image/*"[..1] == "i"; }
    assert RemoveFirst("image/*", '*') == "image/" by {
      assert "image/*"[1..] == "mage/*";
      assert "mage/*"[1..] == "age/*";
      assert "age/*"[1..] == "ge/*";
      assert "ge/*"[1..] == "e/*";
      assert "e/*"[1..] == "/*";
      assert "/*"[1..] == "*";
    }
  }

  /** An empty entry (as `accept` ending in a comma gives) matches every file. */
  lemma EmptyEntryMatchesAll(name: string, mimeType: string)
    ensures EntryMatches("", name, mimeType)
  {
    assert mimeType[..0] == "";
  }

  /** What the picker alerts the user with when it refuses a file. */
  datatype Alert = InvalidType(message: string) | TooLarge(maxSize: int)

  /** The alert for a refused type names the `accept` list as given. */
  function InvalidTypeMessage(accept: string): string {
    "Tipo de archivo no válido. Formatos aceptados: " + accept
  }

  class FilePicker {
    const accept: string
    const maxSize: int
    const preview: bool
    var isDragging: bool
    var previewUrl: Option<string>
    /** The calls made to the owner's `onFileSelect`, oldest first; `None` is a call with `null`. */
    var selections: seq<Option<FileRef>>
    /** The files read with `readAsDataURL` for a preview, oldest first. */
    var previewReads: seq<FileRef>
    var alerts: seq<Alert>

    constructor(accept: string, maxSize: int, preview: bool)
      ensures this.accept == accept && this.maxSize == maxSize && this.preview == preview
      ensures !isDragging && previewUrl.None? && selections == [] && previewReads == [] && alerts == []
    {
      this.accept := accept;
      this.maxSize := maxSize;
      this.preview := preview;
      isDragging := false;
      previewUrl := None;
      selections := [];
      previewReads := [];
      alerts := [];
    }

    /** The alerts `handleFile` raises for `file`: one for a refused type, else one for a file too large. */
    function AlertsFor(file: FileRef): seq<Alert> {
      if !TypeAccepted(accept, file) then [InvalidType(InvalidTypeMessage(accept))]
      else if file.size > maxSize then [TooLarge(maxSize)]
      else []
    }

    /** The preview reads `handleFile` starts for `file`: one for an accepted image when previews are on. */
    function PreviewReadsFor(file: FileRef): seq<FileRef> {
      if Accepts(accept, maxSize, file) && preview && StartsWith(file.mimeType, "image/") then [file] else []
    }

    /**
     * `handleFile`: a refused type alerts and stops; an oversized file alerts and stops; an
     * accepted image starts a preview read when previews are on; an accepted file is then
     * handed to `onFileSelect`, once.
     */
    method HandleFile(file: FileRef)
      modifies this
      ensures selections == old(selections) + (if Accepts(accept, maxSize, file) then [Some(file)] else [])
      ensures !TypeAccepted(accept, file) ==> alerts == old(alerts) + [InvalidType(InvalidTypeMessage(accept))]
      ensures TypeAccepted(accept, file) && file.size > maxSize ==> alerts == old(alerts) + [TooLarge(maxSize)]
      ensures Accepts(accept, maxSize, file) ==> alerts == old(alerts)
      ensures previewReads == old(previewReads) +
        (if Accepts(accept, maxSize, file) && preview && StartsWith(file.mimeType, "image/") then [file] else [])
      ensures isDragging == old(isDragging) && previewUrl == old(previewUrl)
    {
      var isValidType := TypeAccepted(accept, file);
      if !isValidType {
        alerts := alerts + [InvalidType(InvalidTypeMessage(accept))];
        return;
      }
      if file.size > maxSize {
        alerts := alerts + [TooLarge(maxSize)];
        return;
      }
      if preview && StartsWith(file.mimeType, "image/") {
        previewReads := previewReads + [file];
      }
      selections := selections + [Some(file)];
    }

    /** The preview reader finished: its data URL becomes the preview. */
    method PreviewLoaded(dataUrl: string)
      modifies this
      ensures previewUrl == Some(dataUrl)
      ensures isDragging == old(isDragging) && selections == old(selections)
      ensures previewReads == old(previewReads) && alerts == old(alerts)
    {
      previewUrl := Some(dataUrl);
    }

    /** `handleRemove`: the preview is cleared and the owner is told there is no file. */
    method HandleRemove()
      modifies this
      ensures previewUrl.None? && selections == old(selections) + [None]
      ensures isDragging == old(isDragging) && previewReads == old(previewReads) && alerts == old(alerts)
    {
      previewUrl := None;
      selections := selections + [None];
    }

    method DragOver()
      modifies this
      ensures isDragging
      ensures previewUrl == old(previewUrl) && selections == old(selections)
      ensures previewReads == old(previewReads) && alerts == old(alerts)
    {
      isDragging := true;
    }

    method DragLeave()
      modifies this
      ensures !isDragging
      ensures previewUrl == old(previewUrl) && selections == old(selections)
      ensures previewReads == old(previewReads) && alerts == old(alerts)
    {
      isDragging := false;
    }

    /** `handleDrop`: dragging ends, and only the first dropped file is handled. */
    method Drop(files: seq<FileRef>)
      modifies this
      ensures !isDragging && previewUrl == old(previewUrl)
      ensures files == [] ==> selections == old(selections) && alerts == old(alerts) && previewReads == old(previewReads)
      ensures files != [] ==>
        && selections == old(selections) + (if Accepts(accept, maxSize, files[0]) then [Some(files[0])] else [])
        && alerts == old(alerts) + AlertsFor(files[0])
        && previewReads == old(previewReads) + PreviewReadsFor(files[0])
    {
      isDragging := false;
      if |files| > 0 {
        HandleFile(files[0]);
      }
    }

    /** `handleFileInput`: the input's first file, if it has any, is handled. */
    method FileInput(files: Option<seq<FileRef>>)
      modifies this
      ensures isDragging == old(isDragging) && previewUrl == old(previewUrl)
      ensures files.None? || files.value == [] ==>
        selections == old(selections) && alerts == old(alerts) && previewReads == old(previewReads)
      ensures files.Some? && files.value != [] ==>
        && selections == old(selections) + (if Accepts(accept, maxSize, files.value[0]) then [Some(files.value[0])] else [])
        && alerts == old(alerts) + AlertsFor(files.value[0])
        && previewReads == old(previewReads) + PreviewReadsFor(files.value[0])
    {
      if files.Some? && |files.value| > 0 {
        HandleFile(files.value[0]);
      }
    }
  }
}
