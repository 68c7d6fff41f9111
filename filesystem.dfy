/** The parts of Go's `os` and `path/filepath` the modelled code relies on. */
module FileSystem {

  /** An `os.DirEntry` as `os.ReadDir` lists it. */
  datatype DirEntry = DirEntry(name: string, isDir: bool)

  /** `filepath.Join` of a directory and a plain element, both already clean:
      an empty element is dropped. */
  function JoinPath(dir: string, name: string): string {
    if name == "" then dir else if dir == "" then name else dir + "/" + name
  }
}
