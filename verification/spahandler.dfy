/**
 * The single-page-application file handler (pkg/http/spahandler.go): a
 * request path is cleaned, its leading slash dropped, and anything that is
 * not an existing file of the embedded web root falls back to the index
 * page, so that client-side routes load the application.
 */
module Spa {
  import opened Outcomes
  import opened Text
  import GoPath
  import HttpWrappers

  datatype Entry = File | Dir

  /** The embedded web root: relative slash-separated names to what they are. */
  type FileSystem = map<string, Entry>

  const IndexPage := "index.html"

  datatype SPAHandler = SPAHandler(index: string, fsys: FileSystem)

  /** newSPAHandler, given the outcome of reading the embedded archive. */
  function NewSPAHandler(archive: Result<FileSystem, string>): (r: Result<SPAHandler, string>)
    ensures archive.Err? <==> r.Err?
    ensures archive.Err? ==> r.error == archive.error
    ensures r.Ok? ==> r.value.index == IndexPage && r.value.fsys == archive.value
  {
    match archive
    case Ok(fsys) => Ok(SPAHandler(IndexPage, fsys))
    case Err(e) => Err(e)
  }

  /** Stat on the web root: "." is its root directory, any other name is looked up; None means it does not exist. */
  function Stat(fsys: FileSystem, name: string): (r: Option<Entry>)
    ensures r.Some? <==> name == "." || name in fsys
    ensures r == Some(File) ==> name in fsys && fsys[name] == File
  {
    if name == "." then Some(Dir)
    else if name in fsys then Some(fsys[name])
    else None
  }

  /** The cleaned request path with one leading slash removed. */
  function Relative(urlPath: string): (rel: string)
    ensures |urlPath| > 0 && urlPath[0] == '/' ==> rel == Join(GoPath.CleanElements(urlPath), "/")
  {
    assert |urlPath| > 0 && urlPath[0] == '/' ==> GoPath.Clean(urlPath) == "/" + Join(GoPath.CleanElements(urlPath), "/") by {
      if |urlPath| > 0 && urlPath[0] == '/' { GoPath.CleanRootedNames(urlPath); }
    }
    var p := GoPath.Clean(urlPath);
    if HasPrefix(p, "/") then p[1..] else p
  }

  /** The path handed to file serving for a request path. */
  function ServedPath(h: SPAHandler, urlPath: string): (served: string)
    ensures served == h.index || Stat(h.fsys, served) == Some(File)
  {
    var p := if |Relative(urlPath)| == 0 then h.index else Relative(urlPath);
    var st := Stat(h.fsys, p);
    if st.None? || st.value.Dir? then h.index else p
  }

  /**
   * ServeHTTP, up to the hand-off to file serving: returns the path it
   * serves from the web root.
   */
  method ServeHTTP(h: SPAHandler, r: HttpWrappers.Request) returns (served: string)
    ensures served == h.index || Stat(h.fsys, served) == Some(File)
    ensures served == ServedPath(h, r.path)
  {
    var requestPath := GoPath.Clean(r.path);
    if HasPrefix(requestPath, "/") {
      requestPath := requestPath[1..];
    }
    if |requestPath| == 0 {
      requestPath := h.index;
    }
    var st := Stat(h.fsys, requestPath);
    if st.None? || st.value.Dir? {
      requestPath := h.index;
    }
    served := requestPath;
  }

  /** A request for the root gets the index page. */
  lemma RootServesIndex(h: SPAHandler)
    ensures ServedPath(h, "/") == h.index
  {
    assert Split("/", "/") == ["", ""];
    assert GoPath.Resolve([], ["", ""], true) == GoPath.Resolve([], [""], true) == [];
    assert GoPath.Clean("/") == "/";
  }

  /** A path that is missing or names a directory gets the index page. */
  lemma MissingOrDirectoryServesIndex(h: SPAHandler, urlPath: string)
    requires Stat(h.fsys, Relative(urlPath)) != Some(File)
    ensures ServedPath(h, urlPath) == h.index
  {
  }

  /** A non-empty path is served as it is exactly when it names a file (or is the index page itself). */
  lemma ExistingFileServedUnchanged(h: SPAHandler, urlPath: string)
    requires |Relative(urlPath)| > 0
    ensures ServedPath(h, urlPath) == Relative(urlPath) <==> Stat(h.fsys, Relative(urlPath)) == Some(File) || Relative(urlPath) == h.index
  {
  }

  /**
   * For a rooted request path, anything other than the index that is served
   * is a path of plain names: no "..", "." or empty element, so the request
   * cannot climb out of the web root.
   */
  lemma RootedRequestStaysInside(h: SPAHandler, urlPath: string)
    requires |urlPath| > 0 && urlPath[0] == '/'
    ensures var served := ServedPath(h, urlPath);
      served != h.index ==> forall i :: 0 <= i < |Split(served, "/")| ==> GoPath.IsName(Split(served, "/")[i])
  {
    var served := ServedPath(h, urlPath);
    if served != h.index {
      GoPath.CleanRootedNames(urlPath);
      var names := GoPath.CleanElements(urlPath);
      var c := GoPath.Clean(urlPath);
      assert c[..1] == "/";
      assert served == Relative(urlPath) == c[1..] == Join(names, "/");
      assert |served| > 0;
      assert |names| > 0;
      forall i | 0 <= i < |names| ensures '/' !in names[i] {
        assert GoPath.IsName(names[i]);
      }
      SplitJoin(names, '/');
    }
  }
}
