/** Values shared by every part of the model: optional values and the
    Python exceptions that abort a run of the script. */
module Base {

  datatype Option<+T> = None | Some(value: T)

  /** The exceptions the analysed code can raise on its inputs. */
  datatype PyError =
    | IndexError      // a fancy-index assignment outside the array
    | KeyError        // a missing column (an empty frame has none), or a partner missing from the ranking
    | ValueError      // `np.zeros` with a negative length
    | AttributeError  // `.items()` on a post that has no `public_metrics`

  datatype Result<+T> = Ok(value: T) | Err(error: PyError)
}
