# go-static build core, modelled in Dafny

go-static renders a Go `http.Handler` into static files. Each request path is
built by running the handler against a capturing `http.ResponseWriter`. The
captured body is written to a file under an output directory, and the build
reports one `Event` per path to an event handler. This project models that
build core as pure Dafny functions and proves the properties its code and
tests promise:

- `BuildSingle`, `buildWorker` and `Build` from build.go, with:
  - the output-path rules (a trailing `/` means the directory's `DirFilename`);
  - the stat, mkdir, create, request and serve stages, where the first failure wins;
  - one event per path.
- The capturing response writer (response_writer.go): the status-code state
  machine, the lazily made header map, and the body passed straight to the file.
- The in-memory response buffer (response_buffer.go) and its `WriteTo`.
- `buildError.Error()` (build_error.go) and `Event.String()` (event.go).
- The request-path rewrites of the two development servers:
  - static_serve.go: `/` → `/index.html`, append `.html`;
  - serve/server.go: trailing `/` → `index.html`;
  - in both, what happens when no page handles the path.

Modules and files:

| module | file | models |
|---|---|---|
| `Wrappers` | wrappers.dfy | `Option` |
| `Text` | text.dfy | `strings.HasPrefix/HasSuffix/Contains`, cutting at a character, `fmt` `%d` and a decimal parser |
| `FilePaths` | file_paths.dfy | the Unix behaviour of `path/filepath` `Clean`, `Join`, `Dir` and `FromSlash`, lexically on `/`-separated segments |
| `Errors` | build_error.dfy | error values, the `errNotFound` sentinel, `buildError` |
| `Writers` | writers.dfy | the `io.Writer` behind the capture: an append-only sink that may run out of room |
| `ResponseWriters` | response_writer.dfy | `responseWriter`, and a handler as the sequence of calls it makes |
| `ResponseBuffers` | response_buffer.dfy | `responseBuffer` and `bytes.Buffer.WriteTo` |
| `Events` | events.dfy | `Event`, `String()` and a parser of its lines |
| `BuildOptions` | options.dfy | `Options`, `DefaultOptions` |
| `Building` | build.dfy | `BuildSingle`, `buildWorker`, `Build` |
| `StaticServe` | static_serve.dfy | the path rewrite and the not-found decision of `ListenAndServe` |
| `Server` | server.dfy | `WritePage`'s path mapping and event choice |

The environment is the `Env` record in `Building`. It holds five functions:

- `os.Stat`, which returns success or an error, plus whether `os.IsNotExist` holds;
- `os.MkdirAll`;
- `os.Create`, which returns an empty file with some room, or an error;
- `http.NewRequest`;
- the handler, given as the calls it makes on the response writer for a path.

Each build records the environment calls it makes. This lets the order of
the stages, and when `MkdirAll` happens, be stated.

## Model

| member | source | states |
|---|---|---|
| Errors.ErrorText | build_error.go:10-16 | A `buildError`'s text starts with its message. With no cause, the text is the message. With a cause, `": "` follows the message, and after that comes exactly the cause's text. |
| Errors.CauseTextContained | build_error.go:12-14 | The cause's text occurs inside the build error's text. |
| Errors.ContainedInCause | build_error.go:12-14 | Any text found inside the cause's text is also found inside the build error's text. This is how an underlying "not a directory" stays detectable. |
| Errors.SplitErrorTextInverse | build_error.go:10-16 | When the message has no colon, cutting `Error()` at the first colon gives back the message, and the cause's text when there is a cause. Nothing is lost. |
| Text.ParseIntToString | event.go:24 | The `%d` rendering of any integer, negative ones included, reads back as that integer. |
| FilePaths.JoinSplit | build.go:52-56 | Splitting a path at `/` and joining the segments gives the path back. |
| FilePaths.SplitJoin | build.go:52-56 | Joining separator-free segments and splitting the result gives the segments back. |
| FilePaths.JoinUnderRoot | build.go:55 | `filepath.Join` of a clean output directory and a rooted path of plain names is the two texts concatenated. Nothing is dropped and nothing climbs out of the directory. |
| FilePaths.DirUnderRoot | build.go:56 | For such a joined path, `filepath.Dir` of it, plus `/` and the last name, is the path itself. |
| FilePaths.JoinIndex | build.go:51-53 | Joining a rooted directory path that ends in `/` with a plain file name puts the name in place of the empty last segment. |
| FilePaths.CleanSimple | build.go:52-56 | For a path with only plain names and empty segments, `Clean` keeps the plain names in order, drops the empty segments, and keeps a leading `/`. |
| ResponseWriters.NewResponseWriter | response_writer.go:15-17 | A new writer wraps the given sink, has no header map yet, reports status 0 and has no status set. |
| ResponseWriters.GetHeader | response_writer.go:19-24 | The first `Header()` makes an empty map. Later calls return the map already held. Nothing but the header field changes. |
| ResponseWriters.SetHeader | response_writer.go:19-24 | Editing the returned map edits the writer's own map. The sink and the status are untouched. |
| ResponseWriters.WriteHeader | response_writer.go:26-29 | The status becomes the given code and is marked as set. This happens even after bytes were written. The sink and the header are untouched. |
| ResponseWriters.Write | response_writer.go:35-40 | The status becomes 200 unless a code was set, in which case it stays. The bytes go to the sink, and the sink's own `(n, err)` is returned unchanged. |
| ResponseWriters.StatusCode | response_writer.go:31-33 | The code the writer holds. It is stated by `ResponseWriters.RunStatus` and `ResponseWriters.FreshStatus`: the last `WriteHeader` code, else 200 after a write, else 0. |
| ResponseWriters.RunStatus | response_writer.go:26-38 | After any calls, the status is the last `WriteHeader` code. Failing that, it is 200 if the calls wrote, even zero bytes, and no code was set before. Otherwise it is unchanged. The status counts as set iff a code was set before or some call set one. |
| ResponseWriters.FreshStatus | response_writer.go:15-38 | A fresh writer ends with the last `WriteHeader` code. Failing that, it ends with 200 if the handler wrote, else with 0. |
| ResponseWriters.RunBody | response_writer.go:39 | The sink receives every write's bytes in order and unchanged, up to its room. A sink without a limit stays without one. |
| ResponseWriters.RunBodyUnbounded | response_writer.go:39 | With an unbounded sink, the output is exactly the concatenation of all writes. |
| ResponseWriters.RunHeader | response_writer.go:19-24 | After any calls, a header name holds the values of its last edit. A name never edited keeps what it had. |
| ResponseWriters.HeaderStable | response_writer.go:19-24 | A second `Header()` returns the same map and changes nothing. |
| Writers.Write | response_writer.go:39 | The sink takes a prefix of the bytes and reports how many it took. It errs exactly when it took fewer than offered. Its room goes down by what it took. |
| ResponseBuffers.NewResponseBuffer | response_buffer.go:14-19 | A new buffer is empty and has an empty header map. |
| ResponseBuffers.GetHeader | response_buffer.go:21-23 | The map made at construction, returned on every call. `ResponseBuffers.SetHeader` and `ResponseBuffers.RunHeader` state that edits made through it persist. |
| ResponseBuffers.SetHeader | response_buffer.go:21-23 | Editing the header map leaves the bytes alone. |
| ResponseBuffers.Write | response_buffer.go:25-27 | All bytes are appended. The result is `len(p)` with no error. |
| ResponseBuffers.WriteHeader | response_buffer.go:29-30 | Nothing changes. |
| ResponseBuffers.WriteTo | response_buffer.go:32-34 | No byte is lost: what reached the sink plus what is left equals the old sink contents plus the buffer. The count is the number of bytes moved, and an error comes back iff bytes were left. An empty buffer writes nothing. An unbounded sink receives exactly the buffer. |
| ResponseBuffers.RunBuffer | response_buffer.go:25-30 | After any calls, the buffer holds every write in order. Status codes leave no trace. |
| ResponseBuffers.RunHeader | response_buffer.go:21-23 | Header edits persist across `Header()` calls: each name holds the values of its last edit. |
| ResponseBuffers.StatusCallsInert | response_buffer.go:29-30 | Any number of `WriteHeader` calls, with any codes, change neither the bytes nor the header. |
| ResponseBuffers.BufferThenCopy | response_buffer.go:25-34 | Buffering a handler and then copying the buffer to an unbounded writer gives the same bytes as streaming the handler through the capture writer, and leaves the buffer empty. |
| Events.String | event.go:23-29 | The line always starts with the action, status code and path part. It is exactly that part iff the event has no error. |
| Events.StringWithoutError | event.go:24 | With no error, the line is `Action: <action>, StatusCode: <decimal>, Path: <path>`. |
| Events.StringWithError | event.go:24-28 | With an error, the line is the same line without it, followed by `, Error: ` and the error's text. So the error-free line is a prefix. |
| Events.ParseString | event.go:23-29 | When the action and path have no comma, the action, the status code, the path and the error's text can all be read back from the line. |
| Events.StringInjective | event.go:23-29 | For such events, two lines are equal iff the events agree on action, status code, path and error text. |
| Events.WorldLine | event.go:24 | A successful build of `/world` prints `Action: build, StatusCode: 200, Path: /world`. |
| BuildOptions.DefaultValues | options.go:14-18 | `DefaultOptions` writes under `build`, builds 50 paths at once (so at least one worker runs), and saves a directory path as `index.html`. |
| Building.FilePath | build.go:48-53 | The path inside the output directory: the request path, with `DirFilename` joined on when it ends in `/`. `Building.ResolveFile` and `Building.ResolveDirectory` state what it resolves to. |
| Building.OutputPath | build.go:55 | `filepath.Join` of the output directory and `Building.FilePath`. What it is for plain paths is stated by `Building.ResolveFile`, `Building.ResolveDirectory` and `Building.DefaultTopLevel`. |
| Building.OutputDir | build.go:56 | `filepath.Dir` of the output path. `Building.BuildSingleDirectory` states that it is the directory statted and made. |
| Building.BuildSingle | build.go:47-82 | Every failure returns status 0, an empty output path, and a `buildError` that has a cause. A success returns the output path and leaves a file. |
| Building.BuildSingleStages | build.go:57-81 | The calls made are the planned stages up to the first one that fails: stat, then mkdir if stat found nothing, then create, request and serve. The error is that stage's error under its message. There is none if no stage fails. |
| Building.BuildSingleDirectory | build.go:56-60 | The directory statted (and made) is the parent of the output file. `MkdirAll` is called iff stat reported that the directory does not exist. |
| Building.UpToPrefix | build.go:57-81 | The stages run form a non-empty prefix of the plan. A first stage that succeeds is followed by the next one. |
| Building.BuildSingleSuccess | build.go:78-81 | On success, the status is the handler's own: its last `WriteHeader` code, else 200 if it wrote, else 0. So a 404 is data, not an error. The file holds what the handler wrote, as far as the file has room. |
| Building.BuildSingleErrorIgnoresHandler | build.go:57-77 | Whether a build fails does not depend on the handler. A failed build is the same whatever the handler does. |
| Building.DirErrorVisible | build.go:57-64 | A stat error other than not-exist fails the build with status 0 and an empty output path. The stat error's text stays inside the reported error. |
| Building.ResolveFile | build.go:48-56 | A path `/n1/…/nk` of plain names is written to the output directory followed by that path. The directory it needs is its parent. |
| Building.ResolveDirectory | build.go:48-56 | A path `/n1/…/nk/` ends in `/` and is written to `DirFilename` inside that directory, under the output directory. The directory it needs is that directory. |
| Building.DefaultTopLevel | build.go:48-55 | With the default options a top-level plain path such as `/world` is written to `build/` followed by its name, here `build/world`. |
| Building.WorkerEvent | build.go:39-44 | The event a worker sends is a "build" event for its own path. When the build failed, it carries status 0 and an empty output path. When it succeeded, it carries the path's output path. |
| Building.BuildEvents | build.go:39-44 | There is exactly one event per path, in path order, each the worker's event for its path. |
| Building.BuildEventFields | build.go:41-42 | Each event has action `"build"` and its own path. Its status, output path and error are what `BuildSingle` returned. |
| Building.EventPaths | build.go:30-32 | The paths of a list of events, position by position. |
| Building.Build | build.go:13-37 | `Build` blocks iff there are paths but fewer than one worker, because the path channel is unbuffered. Otherwise the events' paths are the input paths in order. |
| Building.DeliverDefault | build.go:14-16 | The default handler leaves the handler state as it was. |
| Building.NilHandler | build.go:14-16 | A nil event handler behaves exactly like the default handler, which discards every event. |
| Building.OneEventPerPath | build.go:22-36 | With at least one worker, the paths get as many events as there are paths. Every path occurs among the events exactly as often as in the input. |
| Building.BuildEventsConcat | build.go:30-32 | The events of two path lists, one after the other, are the events of their concatenation. |
| Building.AnyOrderSameEvents | build.go:22-36 | For an environment that builds of other paths do not change, whatever order the workers finish the paths in, the same events result, each as often as its path occurs. |
| Building.EveryEventCarries | build.go:57-64 | When every path's directory check fails with an error whose text contains some text, every event carries status 0 and an error containing that text. |
| Building.HappySingle | build.go:47-81 | When no stage fails and the handler writes one body, the result is status 200, the output path and no error. The file holds the body. |
| Building.HappyBuild | build.go:13-44 | Building one plain path that meets no failure gives one event: "build", status 200, the path, and the path under the output directory. The handler sees that event's line. |
| StaticServe.RewritePath | static_serve.go:15-20 | The page path always ends in `.html`. Apart from `/`, it starts with the request path and is either that path or that path with `.html` appended. |
| StaticServe.RewriteRoot | static_serve.go:16-17 | `/` becomes `/index.html`, not `/.html`. |
| StaticServe.RewriteKeepsPages | static_serve.go:15-20 | A path already ending in `.html` is kept. |
| StaticServe.RewriteIdempotent | static_serve.go:15-20 | Rewriting twice is rewriting once. |
| StaticServe.Decide | static_serve.go:21-28 | Nothing more happens iff there is no error. The file server answers iff the error is `errNotFound`. The process stops iff there is another error, and it stops on that error. |
| StaticServe.HandleRequest | static_serve.go:14-28 | The renderer is asked for the rewritten path, which ends in `.html`, and its outcome alone decides the next step. |
| Server.FilePath | serve/server.go:42-45 | The page path never ends in `/` and starts with the request path. A path ending in `/` gets `index.html` appended, and any other path is kept. |
| Server.FilePathIdempotent | serve/server.go:42-45 | Mapping a page path again changes nothing. |
| Server.WritePage | serve/server.go:39-56 | Exactly one event is reported. When no page handles the path, it is a "file" event for the request path with no error. Otherwise it is a "build" event for the page path, carrying writing the page's error. |

## Left out

- Goroutines, the `sync.WaitGroup` and the path channel of `Build` (build.go:18-36).
  - `Build` is a map over the path list in input order, which is the order one worker takes the paths in.
  - Other completion orders are covered by `Building.AnyOrderSameEvents`, for an environment that builds of other paths do not change.
  - The interleaving of handler calls between workers is not modelled.
- Building.AnyOrderSameEvents holds because `Env` is one snapshot of the file system and the handler, and no build changes it. In the program one build changes what a later build sees, so the events can depend on the order the workers finish in.
  - Take `/a` and `/a/b`. If `/a` goes first, `Create("build/a")` makes a file, so the later `Create("build/a/b")` fails with "not a directory" (build.go:57-70).
  - If `/a/b` goes first, `MkdirAll("build/a")` makes a directory, and the later `Create("build/a")` fails with "is a directory".
  - A handler that keeps state between requests breaks order independence in the same way. `Building.OneEventPerPath` (the multiset of event paths) holds whatever the file system does.
- Building.Build completes whenever there is a worker. A handler that panics in `ServeHTTP` (build.go:79) is not modelled: `buildWorker` does not recover the panic, so after the deferred `Close` it ends the whole process.
- `Build` with a non-positive `Concurrency` and a non-empty path list never returns. It is modelled as the `Blocked` outcome, not as a hang.
- The event handler is a pure step on a state of the caller's choosing. Any other side effects it has are not modelled.
- `defaultEventHandler` is not part of this model. It is taken to discard events.
- The operating system (`os.Stat`, `os.MkdirAll`, `os.Create`, `Close`), `http.NewRequest` and `h.ServeHTTP` are outcomes supplied by `Env`, not computed.
  - The handler is a fixed sequence of calls per path. It cannot react to the `(n, err)` a `Write` returns.
  - A write that runs out of room reports a fixed "no space left on device" error. `io.ErrShortWrite` in `WriteTo` is therefore unreachable with these sinks, although it is modelled.
- `bytes.Buffer` growth failures (`ErrTooLarge` panics) are not modelled.
- Windows paths, volume names and `\` separators are not modelled. `FilePaths.FromSlash` is the identity, as on Unix.
- Building.ResolveFile covers paths made only of plain names under a clean output directory. Paths containing `.`, `..` or repeated slashes resolve through the general `FilePaths.Clean` without a separate theorem.
- Building.ResolveDirectory covers the same paths only: plain names ending in `/`, under a clean output directory. Directory paths containing `.`, `..` or repeated slashes resolve through the general `FilePaths.Clean` without a separate theorem.
  - For such paths the code's two joins differ from one three-way join. build.go cleans a directory path on its own before joining it under the output directory, so its `..` cannot climb above the root. A file path is joined uncleaned, so its `..` can leave the output directory.
- static.go (page registration, `html/template` rendering, SHA-1 template cache keys, `handleRequest` and `BuildPage`) is not part of this model. The outcome of rendering a path is an input.
- The `s.WritePage` that serve/server.go:47 calls is not part of this model either; it is the `writePage` parameter of `Server.WritePage`.
- Server.WritePage takes the `static.ErrNotFound` that serve/server.go:49 compares against to be the `errNotFound` sentinel of static.go:66, `Errors.NotFound`. static.go declares only the unexported `errNotFound`.
- templates/templates.go, static_run.go, static_build.go, build/builder.go, static_logging.go and page.go are not part of this model. They hold the template layer, command-line dispatch, and an older API.
- `ListenAndServe`, `http.FileServer`, `log.Fatal` and the network serving of both servers are not modelled. Only the path rewrite and the decision of what to do next are.
- `Event.String()` follows event.go, which does not print `OutputPath`. event_test.go:13-15 and example_test.go:26 expect an `OutputPath` part (and the latter a different field order), so they disagree with event.go.
  - build.go:42 sets an `OutputPath` field that event.go's declaration lacks. The model's `Event` has the field because build.go needs it.
- Events.ParseString and Events.StringInjective need actions and paths without commas. A comma in either makes the line ambiguous, and the model does not claim otherwise.
