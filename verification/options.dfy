/** options.go: what a build is configured with. */
module BuildOptions {
  /** `Options`: the output directory, how many paths are built at once,
      and the file name a directory path is saved under. */
  datatype Options = Options(outputDir: string, concurrency: int, dirFilename: string)

  /** `DefaultOptions`. */
  const DefaultOptions: Options := Options("build", 50, "index.html")

  /** The defaults: write under `build`, build 50 paths at once, and save a
      directory path as its `index.html`. */
  lemma DefaultValues()
    ensures DefaultOptions.outputDir == "build"
    ensures DefaultOptions.concurrency == 50 && DefaultOptions.concurrency >= 1
    ensures DefaultOptions.dirFilename == "index.html"
  {
  }
}
