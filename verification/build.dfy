/** build.go: building one path into a file, and building a list of
    paths with one event per path.

    The file system, `http.NewRequest` and the handler are the
    environment `Env`: each is a function from its argument to the
    outcome it reports. A handler is the sequence of calls it makes on
    the response writer for a request path. */
module Building {
  import opened Wrappers
  import opened Text
  import opened Errors
  import FP = FilePaths
  import W = Writers
  import RW = ResponseWriters
  import opened Events
  import opened BuildOptions

  /** `os.Stat(dir)`: success, or an error and whether `os.IsNotExist`
      holds for it. */
  datatype StatResult = StatOk | StatErr(err: Err, notExist: bool)

  /** `os.Create(file)`: an empty file with room for so many bytes (`None`
      for no limit), or an error. */
  datatype Created = Created(room: Option<nat>) | CreateFailed(err: Err)

  datatype Env = Env(
    stat: string -> StatResult,
    mkdirAll: string -> Option<Err>,
    create: string -> Created,
    newRequest: string -> Option<Err>,
    serve: string -> seq<RW.Call>)

  // ----- Where a path is written -----

  /** The path inside the output directory: the request path, with
      `dirFilename` joined on when it ends in `/`. */
  function FilePath(o: Options, path: string): string {
    var filePath := FP.FromSlash(path);
    if HasSuffix(path, "/") then FP.Join(filePath, o.dirFilename) else filePath
  }

  /** The file a path is written to. */
  function OutputPath(o: Options, path: string): string {
    FP.Join(o.outputDir, FilePath(o, path))
  }

  /** The directory that must exist before the file is created. */
  function OutputDir(o: Options, path: string): string {
    FP.Dir(OutputPath(o, path))
  }

  // ----- Building one path -----

  /** A call into the environment. */
  datatype Op =
    | Stat(dir: string)
    | MkdirAll(dir: string)
    | Create(file: string)
    | NewRequest(path: string)
    | Serve(path: string)

  /** The result of `BuildSingle`, the file it left behind (if it created
      one) and the environment calls it made, in order. */
  datatype Built = Built(
    statusCode: int,
    outputPath: string,
    error: Option<Err>,
    file: Option<W.Sink>,
    ops: seq<Op>)

  function DirMessage(dir: string, path: string): string {
    "Unable to create dir " + dir + " for path " + path
  }

  function FileMessage(file: string, path: string): string {
    "Unable to create file " + file + " for path " + path
  }

  function RequestMessage(path: string): string {
    "Unable to create http.Request for path " + path
  }

  /** `BuildSingle(o, h, path)`. */
  function BuildSingle(o: Options, env: Env, path: string): (r: Built)
    ensures r.error.Some? ==>
      r.statusCode == 0 && r.outputPath == "" &&
      r.error.value.BuildError? && r.error.value.cause.Some?
    ensures r.error.None? ==> r.outputPath == OutputPath(o, path) && r.file.Some?
  {
    var outputPath := OutputPath(o, path);
    var outputDir := FP.Dir(outputPath);
    var stat := env.stat(outputDir);
    var missing := stat.StatErr? && stat.notExist;
    var dirErr := if missing then env.mkdirAll(outputDir) else if stat.StatErr? then Some(stat.err) else None;
    var dirOps := [Stat(outputDir)] + (if missing then [MkdirAll(outputDir)] else []);
    if dirErr.Some? then
      Built(0, "", Some(BuildError(DirMessage(outputDir, path), dirErr)), None, dirOps)
    else
      match env.create(outputPath)
      case CreateFailed(e) =>
        Built(0, "", Some(BuildError(FileMessage(outputPath, path), Some(e))), None,
          dirOps + [Create(outputPath)])
      case Created(room) =>
        match env.newRequest(path)
        case Some(e) =>
          Built(0, "", Some(BuildError(RequestMessage(path), Some(e))), Some(W.EmptySink(room)),
            dirOps + [Create(outputPath), NewRequest(path)])
        case None =>
          var rw := RW.Run(RW.NewResponseWriter(W.EmptySink(room)), env.serve(path));
          Built(RW.StatusCode(rw), outputPath, None, Some(rw.writer),
            dirOps + [Create(outputPath), NewRequest(path), Serve(path)])
  }

  /** The calls a build of `path` makes when nothing fails: stat the output
      directory, make it only if stat said it does not exist, create the
      file, make the request, run the handler. */
  function Plan(o: Options, env: Env, path: string): seq<Op> {
    var dir := OutputDir(o, path);
    var s := env.stat(dir);
    [Stat(dir)] + (if s.StatErr? && s.notExist then [MkdirAll(dir)] else []) +
    [Create(OutputPath(o, path)), NewRequest(path), Serve(path)]
  }

  /** The error a call reports, if any. A stat that finds nothing is not a
      failure: it leads to `MkdirAll`. */
  function OpError(env: Env, op: Op): Option<Err> {
    match op
    case Stat(d) =>
      (match env.stat(d)
       case StatOk => None
       case StatErr(e, notExist) => if notExist then None else Some(e))
    case MkdirAll(d) => env.mkdirAll(d)
    case Create(f) =>
      (match env.create(f)
       case Created(_) => None
       case CreateFailed(e) => Some(e))
    case NewRequest(p) => env.newRequest(p)
    case Serve(_) => None
  }

  /** The message that names the stage a call belongs to. */
  function OpMessage(op: Op, path: string): string {
    match op
    case Stat(d) => DirMessage(d, path)
    case MkdirAll(d) => DirMessage(d, path)
    case Create(f) => FileMessage(f, path)
    case NewRequest(_) => RequestMessage(path)
    case Serve(_) => ""
  }

  /** The calls of `ops` up to and including the first that fails. */
  function UpTo(env: Env, ops: seq<Op>): seq<Op> {
    if ops == [] then []
    else if OpError(env, ops[0]).Some? then [ops[0]]
    else [ops[0]] + UpTo(env, ops[1..])
  }

  /** The first failing call of `ops`, wrapped under its stage's message. */
  function FirstFailure(env: Env, path: string, ops: seq<Op>): Option<Err> {
    if ops == [] then None
    else match OpError(env, ops[0])
      case Some(e) => Some(BuildError(OpMessage(ops[0], path), Some(e)))
      case None => FirstFailure(env, path, ops[1..])
  }

  lemma TailStages(env: Env, path: string, out: string)
    ensures var tail := [Create(out), NewRequest(path), Serve(path)];
      UpTo(env, tail) ==
        (if env.create(out).CreateFailed? then [Create(out)]
         else if env.newRequest(path).Some? then [Create(out), NewRequest(path)]
         else tail) &&
      FirstFailure(env, path, tail) ==
        (if env.create(out).CreateFailed? then Some(BuildError(FileMessage(out, path), Some(env.create(out).err)))
         else if env.newRequest(path).Some? then Some(BuildError(RequestMessage(path), env.newRequest(path)))
         else None)
  {
    var tail := [Create(out), NewRequest(path), Serve(path)];
    assert tail[1..] == [NewRequest(path), Serve(path)];
    assert tail[1..][1..] == [Serve(path)];
    assert UpTo(env, [Serve(path)]) == [Serve(path)];
    assert FirstFailure(env, path, [Serve(path)]) == None;
  }

  /** The stages run in order and the first failure wins: the calls made
      are the planned calls up to the first that fails, and the error is
      that call's error under its stage's message (none when no call
      fails). */
  lemma BuildSingleStages(o: Options, env: Env, path: string)
    ensures var r := BuildSingle(o, env, path);
      r.ops == UpTo(env, Plan(o, env, path)) &&
      r.error == FirstFailure(env, path, Plan(o, env, path))
  {
    var dir, out := OutputDir(o, path), OutputPath(o, path);
    var tail := [Create(out), NewRequest(path), Serve(path)];
    DirStages(env, path, dir, tail);
    TailStages(env, path, out);
  }

  /** The directory stages: stat, and `MkdirAll` when stat found nothing;
      a failure there ends the run. */
  lemma DirStages(env: Env, path: string, dir: string, tail: seq<Op>)
    ensures var s := env.stat(dir);
      var missing := s.StatErr? && s.notExist;
      var dirOps := [Stat(dir)] + (if missing then [MkdirAll(dir)] else []);
      var dirErr := if missing then env.mkdirAll(dir) else if s.StatErr? then Some(s.err) else None;
      UpTo(env, dirOps + tail) == (if dirErr.Some? then dirOps else dirOps + UpTo(env, tail)) &&
      FirstFailure(env, path, dirOps + tail) ==
        (if dirErr.Some? then Some(BuildError(DirMessage(dir, path), dirErr)) else FirstFailure(env, path, tail))
  {
    var s := env.stat(dir);
    if s.StatErr? && s.notExist {
      var plan := [Stat(dir)] + [MkdirAll(dir)] + tail;
      assert plan[1..] == [MkdirAll(dir)] + tail;
      assert plan[1..][1..] == tail;
    } else {
      var plan := [Stat(dir)] + [] + tail;
      assert plan[1..] == tail;
    }
  }

  /** The directory checked or made is always the parent of the output
      file, and `MkdirAll` is called exactly when stat reported that it
      does not exist. */
  lemma BuildSingleDirectory(o: Options, env: Env, path: string)
    ensures var r := BuildSingle(o, env, path);
      var dir := OutputDir(o, path);
      r.ops[0] == Stat(dir) &&
      (forall i | 0 <= i < |r.ops| && r.ops[i].MkdirAll? :: r.ops[i].dir == dir) &&
      (MkdirAll(dir) in r.ops <==> env.stat(dir).StatErr? && env.stat(dir).notExist)
  {
    BuildSingleStages(o, env, path);
    var plan := Plan(o, env, path);
    var u := UpTo(env, plan);
    UpToPrefix(env, plan);
    PlanShape(o, env, path);
    assert forall i | 0 <= i < |u| :: u[i] == plan[i];
    if env.stat(OutputDir(o, path)).StatErr? && env.stat(OutputDir(o, path)).notExist {
      assert u[1] == plan[1];
    }
  }

  /** The plan stats the output directory first, and its only `MkdirAll`
      is of that directory, second, when stat found nothing. */
  lemma PlanShape(o: Options, env: Env, path: string)
    ensures var plan, dir := Plan(o, env, path), OutputDir(o, path);
      var missing := env.stat(dir).StatErr? && env.stat(dir).notExist;
      |plan| >= 4 && plan[0] == Stat(dir) && OpError(env, plan[0]).None? == (env.stat(dir).StatOk? || missing) &&
      (missing ==> plan[1] == MkdirAll(dir)) &&
      (forall i | 0 <= i < |plan| :: plan[i].MkdirAll? ==> i == 1 && missing && plan[i].dir == dir)
  {
  }

  /** `UpTo` keeps a non-empty prefix, and gets past a first call that
      succeeds. */
  lemma {:induction false} UpToPrefix(env: Env, ops: seq<Op>)
    ensures var u := UpTo(env, ops);
      |u| <= |ops| && u == ops[..|u|] &&
      (ops != [] ==> |u| >= 1) &&
      (|ops| >= 2 && OpError(env, ops[0]).None? ==> |u| >= 2)
  {
    if ops != [] && OpError(env, ops[0]).None? {
      UpToPrefix(env, ops[1..]);
    }
  }

  /** On success the status is the handler's (a 404 is data, not an
      error): its last `WriteHeader` code, or 200 if it wrote, or 0; and
      the file holds what the handler wrote, as far as the file has room. */
  lemma BuildSingleSuccess(o: Options, env: Env, path: string)
    requires BuildSingle(o, env, path).error.None?
    ensures var r := BuildSingle(o, env, path);
      var calls := env.serve(path);
      var body := RW.Body(calls);
      env.create(OutputPath(o, path)).Created? &&
      r.statusCode == (match RW.LastCode(calls) case Some(c) => c case None => if RW.Writes(calls) then 200 else 0) &&
      r.file.value.contents == body[..W.Accepted(env.create(OutputPath(o, path)).room, |body|)]
  {
    var calls := env.serve(path);
    var room := env.create(OutputPath(o, path)).room;
    RW.FreshStatus(W.EmptySink(room), calls);
    RW.RunBody(RW.NewResponseWriter(W.EmptySink(room)), calls);
    assert [] + RW.Body(calls)[..W.Accepted(room, |RW.Body(calls)|)] ==
      RW.Body(calls)[..W.Accepted(room, |RW.Body(calls)|)];
  }

  /** Whether a build fails does not depend on the handler. */
  lemma BuildSingleErrorIgnoresHandler(o: Options, env: Env, path: string, serve: string -> seq<RW.Call>)
    ensures BuildSingle(o, env.(serve := serve), path).error == BuildSingle(o, env, path).error
    ensures BuildSingle(o, env.(serve := serve), path).error.Some? ==>
      BuildSingle(o, env.(serve := serve), path) == BuildSingle(o, env, path)
  {
  }

  /** An error found while checking the directory shows up, with its text
      intact, in the build error's text: how a file standing where the
      output directory should be is reported as "not a directory". */
  lemma DirErrorVisible(o: Options, env: Env, path: string, t: string)
    requires var s := env.stat(OutputDir(o, path));
      s.StatErr? && !s.notExist && Contains(ErrorText(s.err), t)
    ensures var r := BuildSingle(o, env, path);
      r.statusCode == 0 && r.outputPath == "" && r.error.Some? && Contains(ErrorText(r.error.value), t)
  {
    var s := env.stat(OutputDir(o, path));
    ContainedInCause(DirMessage(OutputDir(o, path), path), s.err, t);
  }

  // ----- Where plain paths go -----

  /** The last name of a non-empty sequence of plain names ends their
      joined text, so a path built from them does not end in `/`. */
  lemma PlainJoinEnd(names: seq<string>)
    requires |names| >= 1 && FP.PlainNames(names)
    ensures !HasSuffix("/" + FP.JoinSegs(names), "/")
  {
    var last := names[|names| - 1];
    FP.PlainNamesInit(names);
    var j := FP.JoinSegs(names);
    if |names| > 1 {
      FP.JoinSnoc(names);
    }
    assert j == FP.JoinSegs(names[..|names| - 1]) + "/" + last || j == last;
    assert ("/" + j)[|"/" + j| - 1] == last[|last| - 1];
    assert last[|last| - 1] in last;
  }

  /** A file path `/n1/.../nk` of plain names is written to that path under
      the output directory, and the directory made for it is its parent. */
  lemma ResolveFile(o: Options, names: seq<string>)
    requires FP.CleanRoot(o.outputDir)
    requires |names| >= 1 && FP.PlainNames(names)
    ensures var path := "/" + FP.JoinSegs(names);
      OutputPath(o, path) == o.outputDir + path &&
      OutputDir(o, path) + "/" + names[|names| - 1] == OutputPath(o, path)
  {
    var path := "/" + FP.JoinSegs(names);
    PlainJoinEnd(names);
    assert FilePath(o, path) == path;
    JoinRooted(o.outputDir, names);
    FP.DirUnderRoot(o.outputDir, names);
  }

  lemma JoinRooted(root: string, names: seq<string>)
    requires FP.CleanRoot(root)
    requires |names| >= 1 && FP.PlainNames(names)
    ensures FP.Join(root, "/" + FP.JoinSegs(names)) == root + "/" + FP.JoinSegs(names)
    ensures root + "/" + FP.JoinSegs(names) == root + ("/" + FP.JoinSegs(names))
  {
    FP.JoinUnderRoot(root, names);
  }

  /** A directory path `/n1/.../nk/` of plain names (`/` when k is 0) is
      written to `dirFilename` inside that directory under the output
      directory, and the directory made for it is that directory. */
  lemma ResolveDirectory(o: Options, names: seq<string>)
    requires FP.CleanRoot(o.outputDir)
    requires FP.PlainNames(names) && FP.PlainName(o.dirFilename)
    ensures var path := "/" + FP.JoinSegs(names + [""]);
      var file := "/" + FP.JoinSegs(names + [o.dirFilename]);
      HasSuffix(path, "/") &&
      OutputPath(o, path) == o.outputDir + file &&
      OutputDir(o, path) + "/" + o.dirFilename == OutputPath(o, path)
  {
    var path := "/" + FP.JoinSegs(names + [""]);
    var all := names + [o.dirFilename];
    DirPathEnd(names);
    FP.JoinIndex(names, o.dirFilename);
    assert FilePath(o, path) == "/" + FP.JoinSegs(all);
    PlainSnoc(names, o.dirFilename);
    JoinRooted(o.outputDir, all);
    FP.DirUnderRoot(o.outputDir, all);
    assert all[|all| - 1] == o.dirFilename;
  }

  lemma PlainSnoc(names: seq<string>, name: string)
    requires FP.PlainNames(names) && FP.PlainName(name)
    ensures FP.PlainNames(names + [name]) && |names + [name]| >= 1
  {
    assert FP.PlainNames([name][1..]);
    FP.PlainNamesConcat(names, [name]);
  }

  lemma DirPathEnd(names: seq<string>)
    ensures HasSuffix("/" + FP.JoinSegs(names + [""]), "/")
  {
    if names == [] {
      assert names + [""] == [""];
    } else {
      FP.JoinConcat(names, [""]);
      assert "/" + FP.JoinSegs(names + [""]) == "/" + FP.JoinSegs(names) + "/";
    }
  }

  /** With the default options a top-level path such as `/world` is
      written to `build/world`. */
  lemma DefaultTopLevel(name: string)
    requires FP.PlainName(name)
    ensures OutputPath(DefaultOptions, "/" + name) == "build/" + name
  {
    BuildIsRoot();
    var names := [name];
    assert FP.PlainNames(names[1..]);
    assert FP.JoinSegs(names) == name;
    ResolveFile(DefaultOptions, names);
  }

  lemma BuildIsRoot()
    ensures FP.CleanRoot("build")
  {
    FP.SplitName("build");
    assert FP.PlainNames(["build"][1..]);
  }

  // ----- Building a list of paths -----

  /** The event `buildWorker` sends for one path. */
  function WorkerEvent(o: Options, env: Env, path: string): (e: Event)
    ensures e.action == "build" && e.path == path
    ensures e.error.Some? ==> e.statusCode == 0 && e.outputPath == ""
    ensures e.error.None? ==> e.outputPath == OutputPath(o, path)
  {
    var r := BuildSingle(o, env, path);
    Event("build", r.statusCode, path, r.outputPath, r.error)
  }

  /** The events for `paths`, one per path, in order. */
  function BuildEvents(o: Options, env: Env, paths: seq<string>): (es: seq<Event>)
    ensures |es| == |paths|
    ensures forall i | 0 <= i < |paths| :: es[i] == WorkerEvent(o, env, paths[i])
  {
    if paths == [] then [] else [WorkerEvent(o, env, paths[0])] + BuildEvents(o, env, paths[1..])
  }

  /** Each event is a "build" of its own path, carrying what `BuildSingle`
      returned for it. */
  lemma BuildEventFields(o: Options, env: Env, paths: seq<string>, i: int)
    requires 0 <= i < |paths|
    ensures var e, r := BuildEvents(o, env, paths)[i], BuildSingle(o, env, paths[i]);
      e.action == "build" && e.path == paths[i] && e.statusCode == r.statusCode &&
      e.outputPath == r.outputPath && e.error == r.error
  {
  }

  function EventPaths(es: seq<Event>): (ps: seq<string>)
    ensures |ps| == |es| && forall i | 0 <= i < |es| :: ps[i] == es[i].path
  {
    if es == [] then [] else [es[0].path] + EventPaths(es[1..])
  }

  /** What a call of the event handler does to the state it acts on. */
  type Handler<!S> = (S, Event) -> S

  /** The handler used when none is given: it discards the event. */
  function DefaultHandler<S>(s: S, e: Event): S {
    s
  }

  /** Calls the handler on each event in turn. */
  function Deliver<S>(eh: Handler<S>, s: S, es: seq<Event>): S
    decreases |es|
  {
    if es == [] then s else Deliver(eh, eh(s, es[0]), es[1..])
  }

  /** What `Build` does: it never returns when there are paths but no
      worker to take them (the path channel is unbuffered); otherwise
      every path's event is delivered to the handler. */
  datatype Outcome<S> = Blocked | Completed(events: seq<Event>, handled: S)

  /** `Build(o, h, paths, eh)`, with the paths taken in the order given
      (the order one worker takes them in). */
  function Build<S>(o: Options, env: Env, paths: seq<string>, eh: Option<Handler<S>>, s0: S): (r: Outcome<S>)
    ensures r.Blocked? <==> |paths| > 0 && o.concurrency < 1
    ensures r.Completed? ==> EventPaths(r.events) == paths
  {
    if |paths| > 0 && o.concurrency < 1 then Blocked
    else
      var es := BuildEvents(o, env, paths);
      var h := eh.GetOr(DefaultHandler);
      Completed(es, Deliver(h, s0, es))
  }

  /** The default handler leaves the state as it was. */
  lemma {:induction false} DeliverDefault<S>(s: S, es: seq<Event>)
    ensures Deliver(DefaultHandler, s, es) == s
    decreases |es|
  {
    if es != [] {
      DeliverDefault(s, es[1..]);
    }
  }

  /** A nil handler behaves as the default handler, which discards every
      event. */
  lemma NilHandler<S>(o: Options, env: Env, paths: seq<string>, s0: S)
    ensures Build(o, env, paths, None, s0) == Build(o, env, paths, Some(DefaultHandler), s0)
    ensures Build(o, env, paths, None, s0).Completed? ==> Build(o, env, paths, None, s0).handled == s0
  {
    DeliverDefault(s0, BuildEvents(o, env, paths));
  }

  /** Every path gets exactly one event: none is dropped or duplicated. */
  lemma OneEventPerPath<S>(o: Options, env: Env, paths: seq<string>, eh: Option<Handler<S>>, s0: S)
    requires o.concurrency >= 1
    ensures var r := Build(o, env, paths, eh, s0);
      r.Completed? && |r.events| == |paths| && multiset(EventPaths(r.events)) == multiset(paths)
  {
  }

  lemma {:induction false} BuildEventsConcat(o: Options, env: Env, ps: seq<string>, qs: seq<string>)
    ensures BuildEvents(o, env, ps + qs) == BuildEvents(o, env, ps) + BuildEvents(o, env, qs)
  {
    var l, r := BuildEvents(o, env, ps + qs), BuildEvents(o, env, ps) + BuildEvents(o, env, qs);
    assert |l| == |r|;
    forall i | 0 <= i < |l|
      ensures l[i] == r[i]
    {
      if i < |ps| {
        assert (ps + qs)[i] == ps[i];
      } else {
        assert (ps + qs)[i] == qs[i - |ps|];
      }
    }
  }

  /** Workers running side by side finish paths in some order; whatever
      the order, the same events are produced, each as many times as its
      path occurs. */
  lemma {:induction false} AnyOrderSameEvents(o: Options, env: Env, ps: seq<string>, qs: seq<string>)
    requires multiset(ps) == multiset(qs)
    ensures multiset(BuildEvents(o, env, ps)) == multiset(BuildEvents(o, env, qs))
    decreases |ps|
  {
    if ps != [] {
      var p := ps[0];
      var k := TakeOut(ps, qs);
      var a, b := qs[..k], qs[k + 1..];
      AnyOrderSameEvents(o, env, ps[1..], a + b);
      assert ps == [p] + ps[1..];
      BuildEventsConcat(o, env, [p], ps[1..]);
      BuildEventsConcat(o, env, a, b);
      BuildEventsConcat(o, env, a + [p], b);
      BuildEventsConcat(o, env, a, [p]);
      MovedOne(BuildEvents(o, env, a), BuildEvents(o, env, [p]), BuildEvents(o, env, b), BuildEvents(o, env, ps[1..]));
    }
  }

  /** Where the first of `ps` sits in `qs`, a permutation of `ps`. */
  lemma TakeOut(ps: seq<string>, qs: seq<string>) returns (k: int)
    requires ps != [] && multiset(ps) == multiset(qs)
    ensures 0 <= k < |qs| && qs[k] == ps[0]
    ensures qs == qs[..k] + [ps[0]] + qs[k + 1..]
    ensures multiset(ps[1..]) == multiset(qs[..k] + qs[k + 1..])
  {
    assert ps[0] in multiset(qs);
    k :| 0 <= k < |qs| && qs[k] == ps[0];
    var a, b := qs[..k], qs[k + 1..];
    assert qs == a + [ps[0]] + b;
    assert multiset(qs) == multiset(a) + multiset{ps[0]} + multiset(b);
    assert ps == [ps[0]] + ps[1..];
    assert multiset(ps) == multiset{ps[0]} + multiset(ps[1..]);
    assert multiset(ps[1..]) == multiset(ps) - multiset{ps[0]};
    assert multiset(a) + multiset(b) == multiset(qs) - multiset{ps[0]};
    assert multiset(a + b) == multiset(a) + multiset(b);
  }

  lemma MovedOne<T>(a: seq<T>, e: seq<T>, b: seq<T>, rest: seq<T>)
    requires multiset(rest) == multiset(a + b)
    ensures multiset(e + rest) == multiset(a + e + b)
  {
  }

  /** When every path's output directory check fails with an error whose
      text contains `t`, every event carries an error whose text contains
      `t`. */
  lemma EveryEventCarries(o: Options, env: Env, paths: seq<string>, t: string)
    requires forall i | 0 <= i < |paths| ::
      var s := env.stat(OutputDir(o, paths[i]));
      s.StatErr? && !s.notExist && Contains(ErrorText(s.err), t)
    ensures var es := BuildEvents(o, env, paths);
      forall i | 0 <= i < |es| :: es[i].statusCode == 0 && es[i].error.Some? && Contains(ErrorText(es[i].error.value), t)
  {
    forall i | 0 <= i < |paths|
      ensures var r := BuildSingle(o, env, paths[i]);
        r.statusCode == 0 && r.error.Some? && Contains(ErrorText(r.error.value), t)
    {
      DirErrorVisible(o, env, paths[i], t);
    }
  }

  /** A handler that prints each event's line, as a log would. */
  function Printer(lines: seq<string>, e: Event): seq<string> {
    lines + [String(e)]
  }

  /** The environment lets `path` be built: the output directory exists,
      the file can be created without a size limit, the request can be
      made, and the handler writes `body` once. */
  predicate Succeeds(o: Options, env: Env, path: string, body: seq<W.byte>) {
    env.stat(OutputDir(o, path)) == StatOk && env.create(OutputPath(o, path)) == Created(None) &&
    env.newRequest(path) == None && env.serve(path) == [RW.BodyWrite(body)]
  }

  /** A build that meets no failure reports 200 and the output path, and
      the file holds the body. */
  lemma HappySingle(o: Options, env: Env, path: string, body: seq<W.byte>)
    requires Succeeds(o, env, path, body)
    ensures var r := BuildSingle(o, env, path);
      r.statusCode == 200 && r.outputPath == OutputPath(o, path) && r.error == None &&
      r.file == Some(W.Sink(body, None))
  {
    var calls := env.serve(path);
    BuildSingleStages(o, env, path);
    TailStages(env, path, OutputPath(o, path));
    var plan := Plan(o, env, path);
    assert plan[1..] == [Create(OutputPath(o, path)), NewRequest(path), Serve(path)];
    assert BuildSingle(o, env, path).error.None?;
    BuildSingleSuccess(o, env, path);
    assert calls[1..] == [];
    assert RW.LastCode(calls) == None && RW.Writes(calls);
    assert RW.Body(calls) == body + [];
    RW.RunBody(RW.NewResponseWriter(W.EmptySink(None)), calls);
    assert body[..|body|] == body;
  }

  /** Building one plain path `/n1/.../nk` that meets no failure: one
      event, status 200, no error, the file under the output directory,
      and the handler sees the event's line. */
  lemma HappyBuild(o: Options, env: Env, names: seq<string>, body: seq<W.byte>)
    requires FP.CleanRoot(o.outputDir) && o.concurrency >= 1
    requires |names| >= 1 && FP.PlainNames(names)
    requires Succeeds(o, env, "/" + FP.JoinSegs(names), body)
    ensures var path := "/" + FP.JoinSegs(names);
      var e := Event("build", 200, path, o.outputDir + path, None);
      Build(o, env, [path], Some(Printer), []) == Completed([e], [PlainLine("build", 200, path)])
  {
    var path := "/" + FP.JoinSegs(names);
    ResolveFile(o, names);
    HappySingle(o, env, path, body);
    var e := Event("build", 200, path, o.outputDir + path, None);
    assert WorkerEvent(o, env, path) == e;
    var es := BuildEvents(o, env, [path]);
    assert es == [e];
    assert Build(o, env, [path], Some(Printer), []) == Completed(es, Deliver(Printer, [], es));
    DeliverOne(e);
    StringWithoutError(e);
  }

  lemma DeliverOne(e: Event)
    ensures Deliver(Printer, [], [e]) == [String(e)]
  {
    assert Deliver(Printer, [], [e]) == Deliver(Printer, [String(e)], []);
  }
}
