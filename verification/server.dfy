/** serve/server.go: the standalone server's page writer, reduced to how
    it maps a request path to a page path and which event it reports. */
module Server {
  import opened Wrappers
  import opened Text
  import opened Errors
  import opened Events

  const IndexFile: string := "index.html"

  /** A path ending in `/` names that directory's index page; any other
      path is used as it is. */
  function FilePath(path: string): (r: string)
    ensures !HasSuffix(r, "/")
    ensures HasPrefix(r, path)
    ensures HasSuffix(path, "/") ==> r == path + IndexFile
    ensures !HasSuffix(path, "/") ==> r == path
  {
    if HasSuffix(path, "/") then
      var r := path + IndexFile;
      assert r[..|path|] == path && r[|r| - 1] == 'l';
      r
    else path
  }

  /** Mapping a page path again changes nothing. */
  lemma FilePathIdempotent(path: string)
    ensures FilePath(FilePath(path)) == FilePath(path)
  {
  }

  /** `WritePage`: the page is written for the mapped path; the events it
      reports to the handler, in order. When no page handles the path,
      the file server answers instead and the event is a "file" event for
      the request path; otherwise it is a "build" event for the page path
      with whatever error writing the page gave. The page writer
      `s.WritePage` is not part of this model and is the `writePage`
      parameter; the `static.ErrNotFound` it is compared against is taken
      to be the `errNotFound` sentinel, `Errors.NotFound`. */
  function WritePage(path: string, writePage: string -> Option<Err>): (es: seq<Event>)
    ensures |es| == 1
    ensures writePage(FilePath(path)) == Some(NotFound) ==>
      es[0].action == "file" && es[0].path == path && es[0].error.None?
    ensures writePage(FilePath(path)) != Some(NotFound) ==>
      es[0].action == "build" && es[0].path == FilePath(path) && es[0].error == writePage(FilePath(path))
    ensures es[0].statusCode == 0 && es[0].outputPath == ""
  {
    var filePath := FilePath(path);
    var err := writePage(filePath);
    if err == Some(NotFound) then [Event("file", 0, path, "", None)]
    else [Event("build", 0, filePath, "", err)]
  }
}
