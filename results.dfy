/** Outcome types shared by every part of the loader model. */
module Results {

  datatype Option<T> = None | Some(value: T)

  /** The errors the loader's functions return, each naming the step that failed. */
  datatype Error =
    | ReadFailed(file: string)        // os.ReadFile of a definition file
    | UnknownKind(file: string)       // neither kind matched
    | ReadDirFailed(dir: string)      // os.ReadDir of a definitions directory
    | CloneFailed(repo: string)       // the git clone subprocess
    | StatFailed(path: string)        // os.Stat of a declared repository sub-directory
    | WalkFailed(path: string)        // filepath.Walk reported an error
    | FetchFailed(url: string)        // GET of a URL source
    | TempWriteFailed(path: string)   // writing the fetched body to a temporary file
    | MissingToken                    // OI_TOKEN is empty
    | ListingFailed                   // GET of the document listing

  datatype Result<T> = Ok(value: T) | Err(error: Error)
}
