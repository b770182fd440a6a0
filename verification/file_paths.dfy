/** A lexical model of the Unix behaviour of Go's `path/filepath` as the
    build uses it: `FromSlash`, `Join` of two elements, `Clean` and `Dir`.

    A path is handled as the sequence of its `/`-separated segments
    (`strings.Split`). `Clean` keeps a stack of names: empty and `.`
    segments are dropped, `..` removes the last name, is dropped at the
    root of a rooted path, and is kept in front of a relative one. This is
    the "Lexical File Names in Plan 9" procedure that `filepath.Clean`
    implements. Windows volume names and separators are not modelled. */
module FilePaths {

  /** `strings.Split(s, "/")`: never empty. */
  function Split(s: string): (r: seq<string>)
    ensures |r| >= 1
  {
    if s == [] then [""]
    else
      var t := Split(s[1..]);
      if s[0] == '/' then [""] + t
      else [[s[0]] + t[0]] + t[1..]
  }

  /** `strings.Join(xs, "/")`. */
  function JoinSegs(xs: seq<string>): string {
    if |xs| == 0 then ""
    else if |xs| == 1 then xs[0]
    else xs[0] + "/" + JoinSegs(xs[1..])
  }

  /** Joining the segments of a path gives the path back. */
  lemma {:induction false} JoinSplit(s: string)
    ensures JoinSegs(Split(s)) == s
  {
    if s != [] {
      var t := Split(s[1..]);
      JoinSplit(s[1..]);
      if s[0] == '/' {
        assert JoinSegs([""] + t) == "" + "/" + JoinSegs(t) by {
          assert ([""] + t)[1..] == t;
        }
      } else if |t| == 1 {
        assert JoinSegs([[s[0]] + t[0]]) == [s[0]] + s[1..];
      } else {
        var u := [[s[0]] + t[0]] + t[1..];
        assert u[1..] == t[1..];
        assert JoinSegs(u) == [s[0]] + t[0] + "/" + JoinSegs(t[1..]);
      }
      assert s == [s[0]] + s[1..];
    }
  }

  /** Splitting at a separator splits the two sides independently. */
  lemma {:induction false} SplitConcat(a: string, b: string)
    ensures Split(a + "/" + b) == Split(a) + Split(b)
  {
    var s := a + "/" + b;
    if a == [] {
      assert s[1..] == b;
    } else {
      assert s[0] == a[0] && s[1..] == a[1..] + "/" + b;
      SplitConcat(a[1..], b);
    }
  }

  /** A string without a separator is a single segment. */
  lemma {:induction false} SplitName(x: string)
    requires '/' !in x
    ensures Split(x) == [x]
  {
    if x != [] {
      SplitName(x[1..]);
      assert x == [x[0]] + x[1..];
    }
  }

  /** No segment holds a separator. */
  predicate NoSeparators(xs: seq<string>) {
    xs == [] || ('/' !in xs[0] && NoSeparators(xs[1..]))
  }

  /** Splitting the join of separator-free segments gives them back. */
  lemma {:induction false} SplitJoin(xs: seq<string>)
    requires |xs| >= 1
    requires NoSeparators(xs)
    ensures Split(JoinSegs(xs)) == xs
  {
    if |xs| == 1 {
      SplitName(xs[0]);
    } else {
      SplitJoin(xs[1..]);
      SplitConcat(xs[0], JoinSegs(xs[1..]));
      SplitName(xs[0]);
      assert xs == [xs[0]] + xs[1..];
    }
  }

  lemma {:induction false} JoinConcat(xs: seq<string>, ys: seq<string>)
    requires |xs| >= 1 && |ys| >= 1
    ensures JoinSegs(xs + ys) == JoinSegs(xs) + "/" + JoinSegs(ys)
  {
    if |xs| == 1 {
      assert (xs + ys)[1..] == ys;
    } else {
      assert (xs + ys)[1..] == xs[1..] + ys;
      JoinConcat(xs[1..], ys);
    }
  }


  /** The first segment is empty exactly when the path is empty or rooted. */
  lemma SplitFirstEmpty(s: string)
    ensures Split(s)[0] == "" <==> (s == [] || s[0] == '/')
  {
  }

  /** A name that `Clean` keeps as it is. */
  predicate PlainName(s: string) {
    s != "" && s != "." && s != ".." && '/' !in s
  }

  predicate PlainNames(xs: seq<string>) {
    xs == [] || (PlainName(xs[0]) && PlainNames(xs[1..]))
  }

  lemma {:induction false} PlainNamesNoSeparators(xs: seq<string>)
    requires PlainNames(xs)
    ensures NoSeparators(xs)
  {
    if xs != [] {
      PlainNamesNoSeparators(xs[1..]);
    }
  }

  lemma {:induction false} PlainNamesConcat(xs: seq<string>, ys: seq<string>)
    ensures PlainNames(xs + ys) <==> PlainNames(xs) && PlainNames(ys)
  {
    if xs == [] {
      assert xs + ys == ys;
    } else {
      assert (xs + ys)[1..] == xs[1..] + ys;
      PlainNamesConcat(xs[1..], ys);
    }
  }

  /** One segment of `Clean`'s scan applied to the stack of names kept so
      far. */
  function Step(rooted: bool, stack: seq<string>, seg: string): seq<string> {
    if seg == "" || seg == "." then stack
    else if seg == ".." then
      if |stack| > 0 && stack[|stack| - 1] != ".." then stack[..|stack| - 1]
      else if rooted then stack
      else stack + [".."]
    else stack + [seg]
  }

  function Fold(rooted: bool, stack: seq<string>, segs: seq<string>): seq<string>
    decreases |segs|
  {
    if segs == [] then stack
    else Fold(rooted, Step(rooted, stack, segs[0]), segs[1..])
  }

  /** The text of a cleaned path: a leading separator when rooted, the
      names joined, and `.` for an empty relative path. */
  function Render(rooted: bool, names: seq<string>): string {
    var s := (if rooted then "/" else "") + JoinSegs(names);
    if s == "" then "." else s
  }

  /** `filepath.Clean`. */
  function Clean(p: string): (r: string)
    ensures r != ""
  {
    if p == "" then "."
    else
      var rooted := p[0] == '/';
      Render(rooted, Fold(rooted, [], Split(p)))
  }

  /** `filepath.FromSlash`: the identity on a host whose separator is `/`. */
  function FromSlash(p: string): string {
    p
  }

  /** `filepath.Join(a, b)`: empty elements are ignored, the rest is joined
      with a separator and cleaned. */
  function Join(a: string, b: string): (r: string)
    ensures r == "" <==> a == "" && b == ""
  {
    if a != "" then Clean(a + "/" + b)
    else if b != "" then Clean(b)
    else ""
  }

  /** Index of the last separator in `s`, or -1 when there is none. */
  function LastSlash(s: string): (r: int)
    ensures -1 <= r < |s|
    ensures r >= 0 ==> s[r] == '/'
    ensures forall j :: r < j < |s| ==> s[j] != '/'
  {
    if s == [] then -1
    else if s[|s| - 1] == '/' then |s| - 1
    else LastSlash(s[..|s| - 1])
  }

  /** `filepath.Dir`: everything up to the last separator, cleaned. */
  function Dir(p: string): (r: string)
    ensures r != ""
  {
    Clean(p[..LastSlash(p) + 1])
  }

  // ----- Cleaning paths whose segments are all empty or plain names -----

  /** Segments that `Clean` either drops (empty) or keeps (plain). */
  predicate Simple(xs: seq<string>) {
    xs == [] || ((xs[0] == "" || PlainName(xs[0])) && Simple(xs[1..]))
  }

  lemma {:induction false} SimpleConcat(xs: seq<string>, ys: seq<string>)
    requires Simple(xs) && Simple(ys)
    ensures Simple(xs + ys)
  {
    if xs == [] {
      assert xs + ys == ys;
    } else {
      assert (xs + ys)[1..] == xs[1..] + ys;
      SimpleConcat(xs[1..], ys);
    }
  }

  lemma {:induction false} PlainNamesSimple(xs: seq<string>)
    requires PlainNames(xs)
    ensures Simple(xs)
  {
    if xs != [] {
      PlainNamesSimple(xs[1..]);
    }
  }

  /** The segments without the empty ones. */
  function NonEmpty(xs: seq<string>): seq<string> {
    if xs == [] then []
    else (if xs[0] == "" then [] else [xs[0]]) + NonEmpty(xs[1..])
  }

  lemma {:induction false} NonEmptyConcat(xs: seq<string>, ys: seq<string>)
    ensures NonEmpty(xs + ys) == NonEmpty(xs) + NonEmpty(ys)
  {
    if xs != [] {
      assert (xs + ys)[1..] == xs[1..] + ys;
      NonEmptyConcat(xs[1..], ys);
    } else {
      assert xs + ys == ys;
    }
  }

  lemma {:induction false} NonEmptyPlain(xs: seq<string>)
    requires PlainNames(xs)
    ensures NonEmpty(xs) == xs
  {
    if xs != [] {
      NonEmptyPlain(xs[1..]);
      assert xs == [xs[0]] + xs[1..];
    }
  }

  /** Over simple segments the scan just keeps the non-empty ones. */
  lemma {:induction false} FoldSimple(rooted: bool, stack: seq<string>, xs: seq<string>)
    requires Simple(xs)
    ensures Fold(rooted, stack, xs) == stack + NonEmpty(xs)
    decreases |xs|
  {
    if xs != [] {
      FoldSimple(rooted, Step(rooted, stack, xs[0]), xs[1..]);
    }
  }

  /** `Clean` of a path whose segments are all simple drops the empty
      ones and joins the rest. */
  lemma CleanSimple(p: string, segs: seq<string>)
    requires p != ""
    requires Split(p) == segs && Simple(segs)
    ensures Clean(p) == Render(p[0] == '/', NonEmpty(segs))
  {
    FoldSimple(p[0] == '/', [], segs);
    assert [] + NonEmpty(segs) == NonEmpty(segs);
  }

  /** The join of plain names is not empty. */
  lemma JoinPlainNotEmpty(xs: seq<string>)
    requires |xs| >= 1 && PlainNames(xs)
    ensures JoinSegs(xs) != ""
  {
    if |xs| > 1 {
      assert JoinSegs(xs) == xs[0] + "/" + JoinSegs(xs[1..]);
    }
  }

  lemma RenderConcat(rooted: bool, xs: seq<string>, ys: seq<string>)
    requires |xs| >= 1 && |ys| >= 1 && JoinSegs(xs) != ""
    ensures Render(rooted, xs + ys) == Render(rooted, xs) + "/" + JoinSegs(ys)
  {
    var pre: string := if rooted then "/" else "";
    var a := JoinSegs(xs);
    var b := JoinSegs(ys);
    JoinConcat(xs, ys);
    var c := JoinSegs(xs + ys);
    assert c == a + "/" + b;
    assert Render(rooted, xs + ys) == pre + c;
    assert pre + (a + "/" + b) == (pre + a) + "/" + b;
  }

  /** A directory path `Clean` leaves alone and that is neither `.` nor
      `/`: plain names, rooted or not, with no trailing separator, such as
      `build` or `/tmp/site/build`. */
  predicate CleanRoot(o: string) {
    var s := Split(o);
    if s[0] == "" then |s| >= 2 && PlainNames(s[1..]) else PlainNames(s)
  }

  /** The names of a clean root, without the empty segment a rooted path
      starts with. */
  lemma CleanRootNames(o: string) returns (core: seq<string>)
    requires CleanRoot(o)
    ensures o != "" && |core| >= 1 && PlainNames(core) && JoinSegs(core) != ""
    ensures NonEmpty(Split(o)) == core
    ensures Simple(Split(o))
    ensures Render(o[0] == '/', core) == o
  {
    var s := Split(o);
    JoinSplit(o);
    SplitFirstEmpty(o);
    if s[0] == "" {
      core := s[1..];
      assert s == [""] + core;
      NonEmptyConcat([""], core);
      NonEmptyPlain(core);
      assert [""][1..] == [];
      JoinConcat([""], core);
      PlainNamesSimple(core);
      SimpleConcat([""], core);
    } else {
      core := s;
      NonEmptyPlain(core);
      PlainNamesSimple(core);
    }
    JoinPlainNotEmpty(core);
  }

  /** The segments of a clean root followed by a rooted path of names. */
  lemma SplitUnderRoot(o: string, names: seq<string>)
    requires |names| >= 1 && NoSeparators(names)
    ensures Split(o + "/" + ("/" + JoinSegs(names))) == Split(o) + ([""] + names)
  {
    var j := JoinSegs(names);
    SplitConcat(o, "/" + j);
    SplitConcat("", j);
    SplitJoin(names);
  }

  lemma NonEmptyUnderRoot(segs: seq<string>, core: seq<string>, names: seq<string>)
    requires NonEmpty(segs) == core && Simple(segs)
    requires PlainNames(names)
    ensures NonEmpty(segs + ([""] + names)) == core + names
    ensures Simple(segs + ([""] + names))
  {
    var tail := [""] + names;
    NonEmptyRootedNames(names);
    NonEmptyConcat(segs, tail);
    SimpleRootedNames(names);
    SimpleConcat(segs, tail);
  }

  lemma NonEmptyRootedNames(names: seq<string>)
    requires PlainNames(names)
    ensures NonEmpty([""] + names) == names
  {
    var tail := [""] + names;
    assert tail[0] == "" && tail[1..] == names;
    NonEmptyPlain(names);
  }

  lemma SimpleRootedNames(names: seq<string>)
    requires PlainNames(names)
    ensures Simple([""] + names)
  {
    var tail := [""] + names;
    assert tail[0] == "" && tail[1..] == names;
    PlainNamesSimple(names);
  }

  /** Joining a clean root with a rooted path of plain names is plain
      concatenation: nothing is dropped, nothing climbs out of the root. */
  lemma JoinUnderRoot(o: string, names: seq<string>)
    requires CleanRoot(o)
    requires |names| >= 1 && PlainNames(names)
    ensures Join(o, "/" + JoinSegs(names)) == o + "/" + JoinSegs(names)
  {
    var core := CleanRootNames(o);
    var j := JoinSegs(names);
    var s := o + "/" + ("/" + j);
    var segs := Split(o) + ([""] + names);
    PlainNamesNoSeparators(names);
    SplitUnderRoot(o, names);
    NonEmptyUnderRoot(Split(o), core, names);
    CleanSimple(s, segs);
    assert s[0] == o[0];
    RenderConcat(o[0] == '/', core, names);
    assert Clean(s) == o + "/" + j;
  }

  /** The text up to the last separator of a path under a clean root. */
  function ParentText(o: string, names: seq<string>): string
    requires |names| >= 1
  {
    if |names| == 1 then o else o + "/" + JoinSegs(names[..|names| - 1])
  }

  /** Joining splits off the last segment. */
  lemma JoinSnoc(xs: seq<string>)
    requires |xs| > 1
    ensures JoinSegs(xs) == JoinSegs(xs[..|xs| - 1]) + "/" + xs[|xs| - 1]
  {
    var init := xs[..|xs| - 1];
    var last := xs[|xs| - 1];
    assert xs == init + [last];
    JoinConcat(init, [last]);
  }

  lemma PlainNamesInit(xs: seq<string>)
    requires |xs| >= 1 && PlainNames(xs)
    ensures PlainNames(xs[..|xs| - 1]) && PlainName(xs[|xs| - 1])
  {
    assert xs == xs[..|xs| - 1] + [xs[|xs| - 1]];
    PlainNamesConcat(xs[..|xs| - 1], [xs[|xs| - 1]]);
  }

  lemma ParentTextSplits(o: string, names: seq<string>)
    requires |names| >= 1
    ensures o + "/" + JoinSegs(names) == ParentText(o, names) + "/" + names[|names| - 1]
  {
    if |names| > 1 {
      JoinSnoc(names);
      SlashAssoc(o, JoinSegs(names[..|names| - 1]), names[|names| - 1]);
    }
  }

  lemma SlashAssoc(a: string, b: string, c: string)
    ensures a + "/" + (b + "/" + c) == (a + "/" + b) + "/" + c
  {
  }

  /** `Clean` strips the separator after the parent text. */
  lemma CleanParent(o: string, names: seq<string>)
    requires CleanRoot(o)
    requires |names| >= 1 && PlainNames(names)
    ensures Clean(ParentText(o, names) + "/") == ParentText(o, names)
  {
    var core := CleanRootNames(o);
    if |names| == 1 {
      CleanRootSlash(o, core);
    } else {
      PlainNamesInit(names);
      CleanParentLong(o, core, names[..|names| - 1]);
    }
  }

  lemma CleanRootSlash(o: string, core: seq<string>)
    requires o != "" && |core| >= 1 && JoinSegs(core) != ""
    requires NonEmpty(Split(o)) == core && Simple(Split(o))
    requires Render(o[0] == '/', core) == o
    ensures Clean(o + "/") == o
  {
    var q := o + "/";
    var segs := Split(o) + [""];
    assert Split(q) == segs by {
      assert q == o + "/" + "";
      SplitConcat(o, "");
    }
    assert NonEmpty(segs) == core by {
      NonEmptyConcat(Split(o), [""]);
      assert NonEmpty([""]) == [];
    }
    assert Simple(segs) by {
      assert Simple([""]);
      SimpleConcat(Split(o), [""]);
    }
    CleanSimple(q, segs);
    assert q[0] == o[0];
  }

  lemma CleanParentLong(o: string, core: seq<string>, init: seq<string>)
    requires o != "" && |core| >= 1 && JoinSegs(core) != ""
    requires NonEmpty(Split(o)) == core && Simple(Split(o))
    requires Render(o[0] == '/', core) == o
    requires |init| >= 1 && PlainNames(init)
    ensures Clean(o + "/" + JoinSegs(init) + "/") == o + "/" + JoinSegs(init)
  {
    var head := o + "/" + JoinSegs(init);
    var q := head + "/";
    var segs := Split(o) + init + [""];
    assert Split(q) == segs by {
      assert q == head + "/" + "";
      SplitConcat(head, "");
      SplitConcat(o, JoinSegs(init));
      PlainNamesNoSeparators(init);
      SplitJoin(init);
    }
    assert NonEmpty(segs) == core + init by {
      NonEmptyConcat(Split(o) + init, [""]);
      NonEmptyConcat(Split(o), init);
      NonEmptyPlain(init);
      assert NonEmpty([""]) == [];
    }
    assert Simple(segs) by {
      PlainNamesSimple(init);
      SimpleConcat(Split(o), init);
      assert Simple([""]);
      SimpleConcat(Split(o) + init, [""]);
    }
    CleanSimple(q, segs);
    assert q[0] == o[0];
    RenderConcat(o[0] == '/', core, init);
  }

  /** The parent of a path under a clean root, followed by a separator and
      the last name, is the path itself. */
  lemma DirUnderRoot(o: string, names: seq<string>)
    requires CleanRoot(o)
    requires |names| >= 1 && PlainNames(names)
    ensures var p := o + "/" + JoinSegs(names);
      Dir(p) + "/" + names[|names| - 1] == p
  {
    var p := o + "/" + JoinSegs(names);
    var head := ParentText(o, names);
    var last := names[|names| - 1];
    ParentTextSplits(o, names);
    PlainNamesInit(names);
    LastSlashBefore(head, last);
    assert p[..LastSlash(p) + 1] == head + "/";
    CleanParent(o, names);
  }

  lemma {:induction false} LastSlashBefore(a: string, b: string)
    requires '/' !in b
    ensures LastSlash(a + "/" + b) == |a|
  {
    var s := a + "/" + b;
    if b != [] {
      var b' := b[..|b| - 1];
      assert s[..|s| - 1] == a + "/" + b';
      LastSlashBefore(a, b');
    }
  }

  /** Joining a rooted directory path of plain names with a plain file
      name puts the file in that directory. */
  lemma JoinIndex(dirNames: seq<string>, file: string)
    requires PlainNames(dirNames) && PlainName(file)
    ensures Join("/" + JoinSegs(dirNames + [""]), file) == "/" + JoinSegs(dirNames + [file])
  {
    var d := JoinSegs(dirNames + [""]);
    var p := "/" + d;
    var s := p + "/" + file;
    var segs := [""] + (dirNames + [""]) + [file];
    assert Split(s) == segs by {
      SplitConcat(p, file);
      SplitName(file);
      SplitConcat("", d);
      PlainNamesNoSeparators(dirNames);
      NoSeparatorsSnoc(dirNames, "");
      SplitJoin(dirNames + [""]);
    }
    assert Simple(segs) && NonEmpty(segs) == dirNames + [file] by {
      PlainNamesSimple(dirNames);
      SimpleConcat(dirNames, [""]);
      SimpleConcat([""], dirNames + [""]);
      assert Simple([file]);
      SimpleConcat([""] + (dirNames + [""]), [file]);
      NonEmptyConcat([""] + (dirNames + [""]), [file]);
      NonEmptyConcat([""], dirNames + [""]);
      NonEmptyConcat(dirNames, [""]);
      NonEmptyPlain(dirNames);
      assert NonEmpty([""]) == [];
      assert NonEmpty([file]) == [file];
    }
    CleanSimple(s, segs);
    assert s[0] == '/';
    PlainNamesConcat(dirNames, [file]);
    JoinPlainNotEmpty(dirNames + [file]);
  }

  lemma {:induction false} NoSeparatorsSnoc(xs: seq<string>, x: string)
    requires NoSeparators(xs) && '/' !in x
    ensures NoSeparators(xs + [x])
  {
    if xs != [] {
      assert (xs + [x])[1..] == xs[1..] + [x];
      NoSeparatorsSnoc(xs[1..], x);
    } else {
      assert xs + [x] == [x];
    }
  }
}
