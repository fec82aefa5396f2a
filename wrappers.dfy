/** An optional value: `None` stands for a key that is absent or a lookup that found nothing. */
module Wrappers {

  datatype Option<+T> = None | Some(value: T)

}
