/** Failure-carrying values shared by every module of the model. */
module Base {

  datatype Option<+T> = None | Some(value: T)

  /** The Python exceptions the modelled code lets escape. */
  datatype Error =
    | TypeError          // find_media: media_type is neither "video" nor "audio"
    | FileNotFoundError  // find_media: the job directory is missing
    | KeyError           // find_media: info_dict.pop("real_file") with no media found
    | AttributeError     // attribute read on None (hachoir metadata, a send that returned None)
    | OSError            // rename of a file onto a directory

  datatype Result<+T> = Ok(value: T) | Err(error: Error)
}
