/**
  The part of the filesystem the commands touch: regular files by path, with
  the three pathlib operations they use. Directories are not modelled.
 */
module Files {

  class FileSystem<C> {
    var files: map<string, C>

    constructor (initial: map<string, C>)
      ensures files == initial
    {
      files := initial;
    }

    /** Path.exists() */
    predicate Exists(path: string)
      reads this
    {
      path in files
    }

    /** Path.write_text(): create the file or overwrite it. */
    method WriteText(path: string, content: C)
      modifies this
      ensures files == old(files)[path := content]
    {
      files := files[path := content];
    }

    /** Path.replace(target): rename the file, overwriting whatever `target` held. */
    method Replace(source: string, target: string)
      requires source in files
      modifies this
      ensures files == (old(files) - {source})[target := old(files)[source]]
    {
      files := (files - {source})[target := files[source]];
    }
  }
}
