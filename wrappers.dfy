/** The optional value used wherever the source has a nullable reference
    (a `string?` specialization, a `COCSkill?` lookup result). */
module Wrappers {

  datatype Option<+T> = None | Some(value: T)
}
