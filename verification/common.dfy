/** Shared vocabulary of the model: row identifiers and the optional value
    that stands for PHP's `null`. */
module Common {

  /** Primary keys of every table are auto-increment integers. */
  type Id = nat

  /** `None` plays the part of a PHP `null` result. */
  datatype Option<+T> = None | Some(value: T)
}
