/** The upload routes: after the upload middleware has stored the files,
    each route answers with the stored names and the public path under
    `/uploads/`. */
module UploadRoutes {
  import opened Common

  /** A file as the upload middleware stored it. */
  datatype StoredFile = StoredFile(filename: string, originalname: string, size: nat)

  /** The payload describing one stored file. */
  datatype FileInfo = FileInfo(filename: string, originalName: string, size: nat, url: string)

  const UploadsPrefix := "/uploads/"

  /** The public path of a stored file. */
  function PublicPath(filename: string): (p: string)
    ensures |p| == |UploadsPrefix| + |filename|
    ensures p[..|UploadsPrefix|] == UploadsPrefix && p[|UploadsPrefix|..] == filename
  {
    UploadsPrefix + filename
  }

  /** The stored filename back from a public path. */
  function FilenameOf(path: string): (r: Option<string>)
    ensures r.Some? <==> |path| >= |UploadsPrefix| && path[..|UploadsPrefix|] == UploadsPrefix
    ensures r.Some? ==> PublicPath(r.value) == path
  {
    if |path| >= |UploadsPrefix| && path[..|UploadsPrefix|] == UploadsPrefix
    then
      assert UploadsPrefix + path[|UploadsPrefix|..] == path;
      Some(path[|UploadsPrefix|..])
    else None
  }

  /** Every public path names its file, so two files never share a path. */
  lemma PublicPathRoundTrip(filename: string, other: string)
    ensures FilenameOf(PublicPath(filename)) == Some(filename)
    ensures PublicPath(filename) == PublicPath(other) ==> filename == other
  {
    var p := PublicPath(filename);
    assert p[..|UploadsPrefix|] == UploadsPrefix;
    if PublicPath(filename) == PublicPath(other) {
      assert filename == p[|UploadsPrefix|..] == PublicPath(other)[|UploadsPrefix|..] == other;
    }
  }

  /** The answer of `POST /`: the path and the stored file's names and size. */
  datatype MainUpload = MainUpload(filePath: string, filename: string, originalName: string, size: nat)

  /** `POST /` */
  function UploadMain(file: Option<StoredFile>): (r: Response<MainUpload>)
    ensures file.None? <==> r == Failure(400, "No file uploaded")
    ensures file.Some? ==> (&& r.Success? && r.status == 200
                            && r.data.filePath == PublicPath(file.value.filename)
                            && r.data.filename == file.value.filename
                            && r.data.originalName == file.value.originalname
                            && r.data.size == file.value.size)
  {
    match file
    case None => Failure(400, "No file uploaded")
    case Some(f) => Success(200, MainUpload(PublicPath(f.filename), f.filename, f.originalname, f.size))
  }

  /** One file's description, as `/single` and `/multiple` give it. */
  function Describe(f: StoredFile): (info: FileInfo)
    ensures info.filename == f.filename && info.originalName == f.originalname && info.size == f.size
    ensures FilenameOf(info.url) == Some(f.filename)
  {
    PublicPathRoundTrip(f.filename, f.filename);
    FileInfo(f.filename, f.originalname, f.size, PublicPath(f.filename))
  }

  /** `POST /single` */
  function UploadSingle(file: Option<StoredFile>): (r: Response<FileInfo>)
    ensures file.None? <==> r == Failure(400, "No file uploaded")
    ensures file.Some? ==> r == Success(200, Describe(file.value))
  {
    match file
    case None => Failure(400, "No file uploaded")
    case Some(f) => Success(200, Describe(f))
  }

  /** `req.files.map(...)`: one description per file, in the same order. */
  function DescribeAll(files: seq<StoredFile>): (r: seq<FileInfo>)
    ensures |r| == |files|
    ensures forall i :: 0 <= i < |r| ==> r[i] == Describe(files[i])
  {
    if files == [] then [] else [Describe(files[0])] + DescribeAll(files[1..])
  }

  /** The urls of a multi-file answer are distinct exactly when the stored
      filenames are. */
  lemma {:induction false} DistinctUrls(files: seq<StoredFile>, i: nat, j: nat)
    requires i < |files| && j < |files|
    ensures DescribeAll(files)[i].url == DescribeAll(files)[j].url <==> files[i].filename == files[j].filename
  {
    PublicPathRoundTrip(files[i].filename, files[j].filename);
  }

  /** `POST /multiple`: an absent or empty file list is refused. */
  function UploadMultiple(files: Option<seq<StoredFile>>): (r: Response<seq<FileInfo>>)
    ensures (files.None? || files.value == []) <==> r == Failure(400, "No files uploaded")
    ensures files.Some? && files.value != [] ==> r == Success(200, DescribeAll(files.value))
    ensures r.Success? ==> |r.data| > 0
  {
    if files.None? || files.value == [] then Failure(400, "No files uploaded")
    else Success(200, DescribeAll(files.value))
  }
}
