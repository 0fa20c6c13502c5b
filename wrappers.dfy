/** The absent/present result the provider hands back to the editor host. */
module Wrappers {

  /** `None` stands for the `null` a provider returns when it declines. */
  datatype Option<+T> = None | Some(value: T)
}
