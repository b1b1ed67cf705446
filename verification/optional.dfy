/**
  The optional value used wherever the localisation layer can come up empty:
  a key path that does not resolve, a preference that was never stored, a
  string that is not a number or not a language tag.
 */
module Optional {

  datatype Option<+T> = None | Some(value: T)

}
