// Small result types shared by the models.
module Wrappers {

  datatype Option<+T> = None | Some(value: T)

  /** `Refused` stands for the exception the modelled code raises. */
  datatype Result<+T> = Ok(value: T) | Refused
}
