/** A value that may be absent: the model's stand-in for a nullable reference
    (`Card | null`) and for the NaN that `parseInt` returns on text without digits. */
module Optional {

  datatype Option<+T> = None | Some(value: T)

}
