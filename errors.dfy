/**
 * The exceptions the facades raise, one kind per class, and the part of
 * the file system they consult.
 */
module Errors {

  /**
   * `FillDataCollectionTypeError`, `FillDataCollectionEmptyError`,
   * `FillTemplateTypeError`, `FillTemplateNotExistError`,
   * `FillOutputDirError`, `FillOutputNameError`, and the `KeyError` the
   * filler lookup raises for an extension it does not know.
   */
  datatype FillError =
    | DataCollectionType
    | DataCollectionEmpty
    | TemplateType
    | TemplateNotExist
    | OutputDir
    | OutputName
    | UnknownExtension(ext: string)
}

/** The file system as the set of existing files and the set of existing directories. */
module Files {

  datatype FileSystem = FileSystem(files: set<string>, dirs: set<string>)
  {
    /** `os.path.isfile`. */
    predicate IsFile(p: string) {
      p in files
    }

    /** `os.path.isdir`. */
    predicate IsDir(p: string) {
      p in dirs
    }

    /** `os.path.exists`. */
    predicate Exists(p: string) {
      IsFile(p) || IsDir(p)
    }
  }
}
