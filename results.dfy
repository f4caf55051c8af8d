/** Failure-compatible result and option types shared by the codec modules.
    Every `panic!` of the save editor (an `unwrap` on a missing alphabet
    character or key, a failed `assert!`, an unsigned underflow, a division by
    zero) is modelled as an `Err` carrying one of the `Error` kinds below. */
module Results {

  datatype Error =
    | InvalidCharacter   // a character outside the starcode alphabet
    | ValueOutOfRange    // a field stored above its declared maximum
    | ChecksumUnderflow  // the stored checksum sum is below the recomputed one
    | NoRunlings         // the handle is divided by an empty runling count
    | WrongSectionName   // a bank section is not named "unit" / "account"
    | MissingKey         // a required key is absent from a bank section

  datatype Result<+T> = Ok(value: T) | Err(error: Error) {
    predicate IsFailure() { Err? }

    function PropagateFailure<U>(): Result<U>
      requires Err?
    {
      Err(error)
    }

    function Extract(): T
      requires Ok?
    {
      value
    }
  }

  datatype Option<+T> = None | Some(value: T)
}
