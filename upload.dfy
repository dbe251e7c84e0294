/**
 * The `upload_document` endpoint up to the point where it queues the
 * ingestion job: the extension check, the text routing by extension, the
 * chunking and the job's title and source.
 */
module Upload {
  import opened Wrappers
  import opened PyStr
  import opened Chunker

  /** `allowed_types` */
  const AllowedTypes: seq<string> := [".pdf", ".txt", ".docx", ".md"]

  /** The status `upload_document` raises for a disallowed extension; its own `except` turns it into 500. */
  const BadRequest := 400

  type Byte = bv8

  /** Every character of `p[lo..hi]` is a dot. */
  predicate AllDots(p: string, lo: nat, hi: nat)
    requires lo <= hi <= |p|
  {
    forall k :: lo <= k < hi ==> p[k] == '.'
  }

  /**
   * `os.path.splitext(p)` on POSIX: the extension runs from the last `.` of
   * the last path component to its end, unless everything in that component
   * before the dot is a dot as well (`.md` and `..md` have no extension).
   */
  function SplitExt(p: string): (parts: (string, string))
    ensures parts.0 + parts.1 == p
    ensures parts.1 == [] || parts.1[0] == '.'
  {
    var sepIndex := RFind(p, '/');
    var dotIndex := RFind(p, '.');
    if dotIndex > sepIndex && !AllDots(p, sepIndex + 1, dotIndex) then (p[..dotIndex], p[dotIndex..])
    else (p, [])
  }

  /**
   * What `splitext` splits off: a non-empty extension is a dot followed by
   * neither a dot nor a slash, after some character of the last component
   * that is not a dot; the extension is empty only when the last component
   * has no dot, or only dots before its last one.
   */
  lemma SplitExtShape(p: string)
    ensures var (root, ext) := SplitExt(p);
      && (ext != [] ==> forall k :: 1 <= k < |ext| ==> ext[k] != '.' && ext[k] != '/')
      && (ext != [] ==> exists k :: RFind(p, '/') < k < |root| && root[k] != '.')
      && (ext == [] ==> RFind(p, '.') <= RFind(p, '/') || AllDots(p, RFind(p, '/') + 1, RFind(p, '.')))
  {
    RFindIsLast(p, '/');
    RFindIsLast(p, '.');
    var (root, ext) := SplitExt(p);
    if ext != [] {
      forall k | 1 <= k < |ext|
        ensures ext[k] != '.' && ext[k] != '/'
      {
        assert ext[k] == p[|root| + k];
      }
      var sepIndex := RFind(p, '/');
      var k :| sepIndex + 1 <= k < RFind(p, '.') && p[k] != '.';
      assert root[k] == p[k];
    }
  }

  /** `os.path.splitext(filename)[1].lower()`: empty or a dot, lower-case throughout. */
  function FileExtension(filename: string): (ext: string)
    ensures |ext| == |SplitExt(filename).1|
    ensures ext == [] || ext[0] == '.'
    ensures Lower(ext) == ext
  {
    Lower(SplitExt(filename).1)
  }

  /** The extension check of `upload_document`: a name without an extension is rejected. */
  predicate IsAccepted(filename: string): (ok: bool)
    ensures ok ==> SplitExt(filename).1 != []
  {
    FileExtension(filename) in AllowedTypes
  }

  /** Names that lower-case alike hold dots and slashes at the same places, so `splitext` cuts them alike. */
  lemma SplitIgnoresCase(a: string, b: string)
    requires Lower(a) == Lower(b)
    ensures |SplitExt(a).1| == |SplitExt(b).1|
  {
    LowerKeepsOthers(a, '/');
    LowerKeepsOthers(b, '/');
    LowerKeepsOthers(a, '.');
    LowerKeepsOthers(b, '.');
    RFindSamePlaces(a, b, '/');
    RFindSamePlaces(a, b, '.');
  }

  /**
   * The check ignores case: file names that lower-case alike have the same
   * extension, so both are accepted or both are rejected.
   */
  lemma AcceptanceIgnoresCase(a: string, b: string)
    requires Lower(a) == Lower(b)
    ensures FileExtension(a) == FileExtension(b)
    ensures IsAccepted(a) <==> IsAccepted(b)
  {
    SplitIgnoresCase(a, b);
    var (ra, ea) := SplitExt(a);
    var (rb, eb) := SplitExt(b);
    assert ea == a[|ra|..] && eb == b[|rb|..] by {
      assert ra + ea == a && rb + eb == b;
    }
    LowerSuffix(a, b, |ra|);
  }

  /** Whether the file is read as UTF-8 text rather than given a placeholder. */
  predicate IsPlainText(ext: string) {
    ext == ".txt" || ext == ".md"
  }

  /**
   * The text of an accepted file: `.txt` and `.md` are decoded as UTF-8
   * (`decode` stands for `bytes.decode('utf-8')`, `None` for the
   * `UnicodeDecodeError` it raises, which ends as 500); `.pdf` and `.docx`
   * get a fixed placeholder naming the file.
   */
  function ExtractText(ext: string, filename: string, content: seq<Byte>, decode: seq<Byte> -> Option<string>): (r: Result<string>)
    ensures IsPlainText(ext) ==> (r.Success? <==> decode(content).Some?)
    ensures IsPlainText(ext) && r.Success? ==> r.value == decode(content).value
    ensures !IsPlainText(ext) ==> r.Success? && r.value == "Document content from " + filename
    ensures r.Failure? ==> r.status == InternalError
  {
    if IsPlainText(ext) then
      match decode(content)
      case Some(text) => Success(text)
      case None => Failure(InternalError)
    else Success("Document content from " + filename)
  }

  /** The ingestion job an accepted upload queues: its id, chunks, title and source. */
  datatype Job = Job(documentId: string, chunks: seq<string>, title: string, source: string)

  /**
   * `upload_document`. A disallowed extension raises 400 inside the `try`,
   * whose `except Exception` re-raises it, like any other failure, as 500.
   * `docId` is the digest of the file name and the clock the source computes.
   */
  method UploadDocument(filename: string, title: Option<string>, content: seq<Byte>,
                        decode: seq<Byte> -> Option<string>, docId: string) returns (r: Result<Job>)
    ensures !IsAccepted(filename) ==> r == Failure(InternalError)
    ensures r.Success? <==>
      IsAccepted(filename) && ExtractText(FileExtension(filename), filename, content, decode).Success?
    ensures r.Failure? ==> r.status == InternalError
    ensures r.Success? ==>
      var text := ExtractText(FileExtension(filename), filename, content, decode).value;
      && r.value.chunks == Chunks(text, DefaultChunkSize, DefaultOverlap)
      && (r.value.chunks == [] <==> text == [])
      && r.value.documentId == docId
      && r.value.title == Or(title, filename)
      && r.value.source == filename
  {
    var fileExt := FileExtension(filename);
    if fileExt !in AllowedTypes {
      // raised as BadRequest, caught and re-raised as InternalError
      r := Failure(InternalError);
      return;
    }
    var text := ExtractText(fileExt, filename, content, decode);
    if text.Failure? {
      r := Failure(InternalError);
      return;
    }
    var chunks := ChunkText(text.value, DefaultChunkSize, DefaultOverlap);
    r := Success(Job(docId, chunks, Or(title, filename), filename));
  }

  /** The check ignores case: `A.TXT` is accepted. */
  lemma UpperCaseAccepted()
    ensures IsAccepted("A.TXT")
  {
    var p := "A.TXT";
    RFindIsLast(p, '/');
    RFindIsLast(p, '.');
    assert p[1] == '.' && p[2] != '.' && p[3] != '.' && p[4] != '.';
    assert RFind(p, '/') == -1 && RFind(p, '.') == 1;
    assert p[0] != '.';
    assert p[..1] == "A" && p[1..] == ".TXT";
    assert LowerChar('.') == '.' && LowerChar('T') == 't' && LowerChar('X') == 'x';
    assert Lower(".TXT") == ".txt";
  }

  /** Only the last extension counts: `a.md.gz` is rejected. */
  lemma LastExtensionOnly()
    ensures !IsAccepted("a.md.gz")
  {
    var p := "a.md.gz";
    RFindIsLast(p, '/');
    RFindIsLast(p, '.');
    assert RFind(p, '/') == -1 && RFind(p, '.') == 4;
    assert p[0] != '.';
    assert p[..4] == "a.md" && p[4..] == ".gz";
  }

  /** A dot file has no extension: `.md` is rejected. */
  lemma DotFileRejected()
    ensures !IsAccepted(".md")
  {
    var p := ".md";
    RFindIsLast(p, '/');
    RFindIsLast(p, '.');
    assert RFind(p, '/') == -1 && RFind(p, '.') == 0;
    assert AllDots(p, 0, 0);
  }

  /** An executable is rejected (with 500, see `UploadDocument`). */
  lemma ExecutableRejected()
    ensures !IsAccepted("x.exe")
  {
    var p := "x.exe";
    RFindIsLast(p, '/');
    RFindIsLast(p, '.');
    assert p[1] == '.' && p[2] != '.' && p[3] != '.' && p[4] != '.';
    assert RFind(p, '/') == -1 && RFind(p, '.') == 1;
    assert p[0] != '.';
    assert p[..1] == "x" && p[1..] == ".exe";
  }
}
