/** static_serve.go: the development server's request handler, reduced to
    how it rewrites the request path into a page path and what it does
    with the outcome of rendering that page. */
module StaticServe {
  import opened Wrappers
  import opened Text
  import opened Errors

  const HtmlSuffix: string := ".html"

  /** The page path for a request path: `/` is the index page, any other
      path without the `.html` suffix gets it appended, and a path that
      already has it is kept. */
  function RewritePath(path: string): (r: string)
    ensures HasSuffix(r, HtmlSuffix)
    ensures path != "/" ==> HasPrefix(r, path) && (|r| == |path| || |r| == |path| + |HtmlSuffix|)
  {
    if path == "/" then "/index.html"
    else if !HasSuffix(path, HtmlSuffix) then
      var r := path + HtmlSuffix;
      assert r[|r| - |HtmlSuffix|..] == HtmlSuffix && r[..|path|] == path;
      r
    else path
  }

  /** A path that already names a page is left alone. */
  lemma RewriteKeepsPages(path: string)
    requires HasSuffix(path, HtmlSuffix)
    ensures RewritePath(path) == path
  {
  }

  /** The root becomes the index page, not `/.html`. */
  lemma RewriteRoot()
    ensures RewritePath("/") == "/index.html"
    ensures RewritePath("/") != "/" + HtmlSuffix
  {
    assert "/index.html"[1] != ("/" + HtmlSuffix)[1];
  }

  /** Rewriting a second time changes nothing. */
  lemma RewriteIdempotent(path: string)
    ensures RewritePath(RewritePath(path)) == RewritePath(path)
  {
    RewriteKeepsPages(RewritePath(path));
  }

  /** What the handler does after rendering: nothing more on success,
      fall back to the file server when no page handles the path, stop
      the process on any other error. */
  datatype Next = Served | ServeFile | Fatal(err: Err)

  function Decide(err: Option<Err>): (n: Next)
    ensures n == Served <==> err.None?
    ensures n == ServeFile <==> err == Some(NotFound)
    ensures n.Fatal? <==> err.Some? && err.value != NotFound
    ensures n.Fatal? ==> err == Some(n.err)
  {
    match err
    case None => Served
    case Some(e) => if e == NotFound then ServeFile else Fatal(e)
  }

  /** The handler for a request path: the page renderer is asked for the
      rewritten path, and its outcome decides the next step. */
  function HandleRequest(path: string, render: string -> Option<Err>): (r: (string, Next))
    ensures HasSuffix(r.0, HtmlSuffix)
    ensures r.1 == Decide(render(RewritePath(path))) && r.0 == RewritePath(path)
  {
    var page := RewritePath(path);
    (page, Decide(render(page)))
  }
}
